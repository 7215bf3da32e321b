/** Date-times counted from the Unix epoch, 1970-01-01 00:00:00, in the
    proleptic Gregorian calendar: how `pd.to_datetime` reads an integer
    (nanoseconds since the epoch, export_to_s3.py:83, 85) and how a
    date-time becomes a count again. */
module Epoch {
  import opened Values

  const SecondsPerDay: int := 86400
  const NanosPerSecond: int := 1_000_000_000

  function YearLength(y: nat): nat {
    if IsLeapYear(y) then 366 else 365
  }

  /** Leap years among the years 1 to `y - 1`. */
  function LeapYearsBefore(y: nat): int
    requires y >= 1
  {
    (y - 1) / 4 - (y - 1) / 100 + (y - 1) / 400
  }

  /** Days from 1970-01-01 to January 1 of year `y`, negative before 1970. */
  function DaysBeforeYear(y: nat): int
    requires y >= 1
  {
    365 * (y - 1970) + LeapYearsBefore(y) - LeapYearsBefore(1970)
  }

  /** Days from January 1 to the first day of month `m`. */
  function DaysBeforeMonth(y: nat, m: nat): nat
    requires 1 <= m <= 12
  {
    if m == 1 then 0 else DaysBeforeMonth(y, m - 1) + DaysInMonth(y, m - 1)
  }

  /** The day number of a date: days from 1970-01-01 to it. */
  function DaysFromCivil(d: CalendarDate): int
    requires d.year >= 1 && 1 <= d.month <= 12
  {
    DaysBeforeYear(d.year) + DaysBeforeMonth(d.year, d.month) + d.day - 1
  }

  /** Seconds from the epoch to a date-time. */
  function EpochSeconds(t: Timestamp): int
    requires t.date.year >= 1 && 1 <= t.date.month <= 12
  {
    DaysFromCivil(t.date) * SecondsPerDay + t.hour * 3600 + t.minute * 60 + t.second
  }

  // ---------------------------------------------------------------- years

  lemma QuarterStep(y: nat)
    requires y >= 1
    ensures y / 4 - (y - 1) / 4 == if y % 4 == 0 then 1 else 0
  {
  }

  lemma CenturyStep(y: nat)
    requires y >= 1
    ensures y / 100 - (y - 1) / 100 == if y % 100 == 0 then 1 else 0
  {
  }

  lemma QuadricentennialStep(y: nat)
    requires y >= 1
    ensures y / 400 - (y - 1) / 400 == if y % 400 == 0 then 1 else 0
  {
  }

  /** The closed-form count of leap years grows by one exactly after a leap
      year. */
  lemma LeapStep(y: nat)
    requires y >= 1
    ensures LeapYearsBefore(y + 1) - LeapYearsBefore(y) == if IsLeapYear(y) then 1 else 0
  {
    QuarterStep(y);
    CenturyStep(y);
    QuadricentennialStep(y);
    if y % 400 == 0 {
      assert y % 100 == 0 && y % 4 == 0;
    } else if y % 100 == 0 {
      assert y % 4 == 0;
    }
  }

  lemma YearStep(y: nat)
    requires y >= 1
    ensures DaysBeforeYear(y + 1) == DaysBeforeYear(y) + YearLength(y)
  {
    LeapStep(y);
  }

  /** Later years start later. */
  lemma {:induction false} YearsIncrease(a: nat, b: nat)
    requires 1 <= a < b
    ensures DaysBeforeYear(a) + YearLength(a) <= DaysBeforeYear(b)
    decreases b - a
  {
    YearStep(a);
    if a + 1 < b {
      YearsIncrease(a + 1, b);
    }
  }

  /** The year holding day `z`, searching forward from year `y`. */
  function YearForward(z: int, y: nat): (year: nat)
    requires 1 <= y && DaysBeforeYear(y) <= z
    ensures y <= year && DaysBeforeYear(year) <= z < DaysBeforeYear(year + 1)
    decreases z - DaysBeforeYear(y)
  {
    YearStep(y);
    if z < DaysBeforeYear(y + 1) then y else YearForward(z, y + 1)
  }

  /** The year holding day `z`, searching backward from year `y`. */
  function YearBackward(z: int, y: nat): (year: nat)
    requires 1 <= y && DaysBeforeYear(1) <= z < DaysBeforeYear(y + 1)
    ensures 1 <= year <= y && DaysBeforeYear(year) <= z < DaysBeforeYear(year + 1)
    decreases y
  {
    if DaysBeforeYear(y) <= z then y else YearBackward(z, y - 1)
  }

  /** The year holding day `z`. */
  function YearOf(z: int): (year: nat)
    requires DaysBeforeYear(1) <= z
    ensures 1 <= year && DaysBeforeYear(year) <= z < DaysBeforeYear(year + 1)
  {
    if z >= 0 then YearForward(z, 1970) else YearBackward(z, 1969)
  }

  /** Only one year holds a given day. */
  lemma YearUnique(z: int, a: nat, b: nat)
    requires 1 <= a && DaysBeforeYear(a) <= z < DaysBeforeYear(a + 1)
    requires 1 <= b && DaysBeforeYear(b) <= z < DaysBeforeYear(b + 1)
    ensures a == b
  {
    if a < b {
      YearStep(a);
      YearsIncrease(a, b);
    } else if b < a {
      YearStep(b);
      YearsIncrease(b, a);
    }
  }

  // ---------------------------------------------------------------- months

  lemma MonthsOfYear(y: nat)
    ensures DaysBeforeMonth(y, 12) + DaysInMonth(y, 12) == YearLength(y)
  {
    var feb := DaysInMonth(y, 2);
    assert DaysBeforeMonth(y, 2) == 31;
    assert DaysBeforeMonth(y, 3) == 31 + feb;
    assert DaysBeforeMonth(y, 4) == 62 + feb;
    assert DaysBeforeMonth(y, 5) == 92 + feb;
    assert DaysBeforeMonth(y, 6) == 123 + feb;
    assert DaysBeforeMonth(y, 7) == 153 + feb;
    assert DaysBeforeMonth(y, 8) == 184 + feb;
    assert DaysBeforeMonth(y, 9) == 215 + feb;
    assert DaysBeforeMonth(y, 10) == 245 + feb;
    assert DaysBeforeMonth(y, 11) == 276 + feb;
    assert DaysBeforeMonth(y, 12) == 306 + feb;
  }

  /** Later months of a year start later. */
  lemma {:induction false} MonthsIncrease(y: nat, a: nat, b: nat)
    requires 1 <= a < b <= 12
    ensures DaysBeforeMonth(y, a) + DaysInMonth(y, a) <= DaysBeforeMonth(y, b)
    decreases b - a
  {
    if a + 1 < b {
      MonthsIncrease(y, a + 1, b);
    }
  }

  /** A month ends within its year. */
  lemma MonthInYear(y: nat, m: nat)
    requires 1 <= m <= 12
    ensures DaysBeforeMonth(y, m) + DaysInMonth(y, m) <= YearLength(y)
  {
    MonthsOfYear(y);
    if m < 12 {
      MonthsIncrease(y, m, 12);
    }
  }

  /** The date that is day `n` (counted from 0) of year `y`, searching from
      month `m`. */
  function MonthDay(y: nat, m: nat, n: nat): (d: CalendarDate)
    requires 1 <= m <= 12 && DaysBeforeMonth(y, m) <= n < YearLength(y)
    ensures d.year == y && m <= d.month <= 12 && 1 <= d.day <= DaysInMonth(y, d.month)
    ensures DaysBeforeMonth(y, d.month) + d.day - 1 == n
    decreases 12 - m
  {
    MonthsOfYear(y);
    if n < DaysBeforeMonth(y, m) + DaysInMonth(y, m) then CalendarDate(y, m, n - DaysBeforeMonth(y, m) + 1)
    else MonthDay(y, m + 1, n)
  }

  /** Only one month and day give a day of the year. */
  lemma MonthDayUnique(y: nat, m1: nat, d1: nat, m2: nat, d2: nat)
    requires 1 <= m1 <= 12 && 1 <= d1 <= DaysInMonth(y, m1)
    requires 1 <= m2 <= 12 && 1 <= d2 <= DaysInMonth(y, m2)
    requires DaysBeforeMonth(y, m1) + d1 == DaysBeforeMonth(y, m2) + d2
    ensures m1 == m2 && d1 == d2
  {
    if m1 < m2 {
      MonthsIncrease(y, m1, m2);
    } else if m2 < m1 {
      MonthsIncrease(y, m2, m1);
    }
  }

  // ---------------------------------------------------------------- from counts to dates

  /** The calendar date of day number `z`. */
  function CivilFromDays(z: int): (d: CalendarDate)
    requires DaysBeforeYear(1) <= z
    ensures d.year >= 1 && 1 <= d.month <= 12 && 1 <= d.day <= DaysInMonth(d.year, d.month)
  {
    var y := YearOf(z);
    YearStep(y);
    MonthDay(y, 1, z - DaysBeforeYear(y))
  }

  /** The date-time `s` seconds after the epoch (before it when negative). */
  function EpochTimestamp(s: int): (t: Timestamp)
    requires DaysBeforeYear(1) * SecondsPerDay <= s
    ensures t.date.year >= 1 && 1 <= t.date.month <= 12 && 1 <= t.date.day <= DaysInMonth(t.date.year, t.date.month)
    ensures t.hour < 24 && t.minute < 60 && t.second < 60
  {
    var r := s % SecondsPerDay;
    Timestamp(CivilFromDays(s / SecondsPerDay), r / 3600, r % 3600 / 60, r % 3600 % 60)
  }

  /** The date-time an integer denotes for `pd.to_datetime`: that many
      nanoseconds after the epoch, cut to the second below as `strftime`
      writes it. */
  function NanosTimestamp(i: int): Timestamp
    requires DaysBeforeYear(1) * SecondsPerDay * NanosPerSecond <= i
  {
    EpochTimestamp(i / NanosPerSecond)
  }

  // ---------------------------------------------------------------- round trips

  /** Every day number is the day number of its date. */
  lemma CivilRoundTrip(z: int)
    requires DaysBeforeYear(1) <= z
    ensures DaysFromCivil(CivilFromDays(z)) == z
  {
  }

  /** Every date is the date of its day number. */
  lemma DaysRoundTrip(d: CalendarDate)
    requires d.year >= 1 && 1 <= d.month <= 12 && 1 <= d.day <= DaysInMonth(d.year, d.month)
    ensures DaysBeforeYear(1) <= DaysFromCivil(d)
    ensures CivilFromDays(DaysFromCivil(d)) == d
  {
    var z := DaysFromCivil(d);
    MonthInYear(d.year, d.month);
    YearStep(d.year);
    if d.year > 1 {
      YearsIncrease(1, d.year);
    }
    var e := CivilFromDays(z);
    YearUnique(z, YearOf(z), d.year);
    MonthDayUnique(d.year, e.month, e.day, d.month, d.day);
  }

  /** Every second count is the count of its date-time. */
  lemma EpochRoundTrip(s: int)
    requires DaysBeforeYear(1) * SecondsPerDay <= s
    ensures EpochSeconds(EpochTimestamp(s)) == s
  {
    CivilRoundTrip(s / SecondsPerDay);
  }

  /** Splitting a second count into days and the seconds of the day. */
  lemma DaySplit(z: int, c: int)
    requires 0 <= c < SecondsPerDay
    ensures (z * SecondsPerDay + c) / SecondsPerDay == z
    ensures (z * SecondsPerDay + c) % SecondsPerDay == c
  {
  }

  /** Splitting the seconds of a day into hours, minutes and seconds. */
  lemma ClockSplit(h: nat, m: nat, s: nat)
    requires h < 24 && m < 60 && s < 60
    ensures (h * 3600 + m * 60 + s) / 3600 == h
    ensures (h * 3600 + m * 60 + s) % 3600 / 60 == m
    ensures (h * 3600 + m * 60 + s) % 3600 % 60 == s
  {
    assert (h * 3600 + m * 60 + s) % 3600 == m * 60 + s;
  }

  /** Every date-time is the date-time of its second count. */
  lemma TimestampRoundTrip(t: Timestamp)
    requires t.date.year >= 1 && 1 <= t.date.month <= 12 && 1 <= t.date.day <= DaysInMonth(t.date.year, t.date.month)
    requires t.hour < 24 && t.minute < 60 && t.second < 60
    ensures DaysBeforeYear(1) * SecondsPerDay <= EpochSeconds(t)
    ensures EpochTimestamp(EpochSeconds(t)) == t
  {
    DaysRoundTrip(t.date);
    var z := DaysFromCivil(t.date);
    var c := t.hour * 3600 + t.minute * 60 + t.second;
    var s := EpochSeconds(t);
    assert s == z * SecondsPerDay + c;
    DaySplit(z, c);
    ClockSplit(t.hour, t.minute, t.second);
    assert s / SecondsPerDay == z && s % SecondsPerDay == c;
    assert EpochTimestamp(s) == Timestamp(CivilFromDays(z), c / 3600, c % 3600 / 60, c % 3600 % 60);
  }
}
