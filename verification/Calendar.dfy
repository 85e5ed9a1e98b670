/** Calendar conversion between civil dates (UTC) and seconds since the Epoch. */
module Calendar {
  import opened Base

  const SECONDS_PER_DAY: nat := 86400
  const FIRST_YEAR: nat := 1970
  const LAST_YEAR: nat := 65535

  datatype DateTime = DateTime(year: nat, month: nat, day: nat, hour: nat, minute: nat, second: nat)

  predicate IsLeapYear(year: nat) {
    year % 4 == 0 && (year % 100 != 0 || year % 400 == 0)
  }

  function DaysInMonth(year: nat, month: nat): (days: nat)
    ensures 1 <= month <= 12 ==> 28 <= days <= 31
  {
    match month
    case 1 => 31
    case 2 => if IsLeapYear(year) then 29 else 28
    case 3 => 31
    case 4 => 30
    case 5 => 31
    case 6 => 30
    case 7 => 31
    case 8 => 31
    case 9 => 30
    case 10 => 31
    case 11 => 30
    case 12 => 31
    case _ => 0
  }

  predicate IsValid(t: DateTime) {
    && FIRST_YEAR <= t.year <= LAST_YEAR && 1 <= t.month <= 12 && 1 <= t.day <= DaysInMonth(t.year, t.month)
    && t.hour < 24 && t.minute < 60 && t.second < 60
  }

  // ------------------------------------------------------------------------ years

  /** Closed form with the leap days of all earlier years. */
  function DaysBeforeYear(year: nat): nat {
    var previous := if year == 0 then 0 else year - 1;
    previous * 365 + previous / 4 - previous / 100 + previous / 400
  }

  function DaysInYear(year: nat): nat {
    if IsLeapYear(year) then 366 else 365
  }

  /** Year by year, from year 1. */
  function DaysCounted(year: nat): nat {
    if year <= 1 then 0 else DaysCounted(year - 1) + DaysInYear(year - 1)
  }

  lemma YearStep(year: nat)
    requires 1 <= year
    ensures DaysBeforeYear(year + 1) == DaysBeforeYear(year) + DaysInYear(year)
  {
    Quarters(year);
    Centuries(year);
    Cycles(year);
    if year % 100 == 0 {
      Quartered(25 * (year / 100));
      assert year == 4 * (25 * (year / 100));
    }
    if year % 400 == 0 {
      Hundreds(4 * (year / 400));
      assert year == 100 * (4 * (year / 400));
    }
  }

  lemma Quartered(k: nat)
    ensures (4 * k) % 4 == 0
  {
  }

  lemma Hundreds(k: nat)
    ensures (100 * k) % 100 == 0
  {
  }

  lemma Quarters(year: nat)
    requires 1 <= year
    ensures year / 4 == (year - 1) / 4 + if year % 4 == 0 then 1 else 0
  {
  }

  lemma Centuries(year: nat)
    requires 1 <= year
    ensures year / 100 == (year - 1) / 100 + if year % 100 == 0 then 1 else 0
  {
  }

  lemma Cycles(year: nat)
    requires 1 <= year
    ensures year / 400 == (year - 1) / 400 + if year % 400 == 0 then 1 else 0
  {
  }

  /** The closed form counts the days of every earlier year. */
  lemma {:induction false} ClosedForm(year: nat)
    ensures DaysBeforeYear(year) == DaysCounted(year)
  {
    if 1 < year {
      ClosedForm(year - 1);
      YearStep(year - 1);
    }
  }

  lemma {:induction false} YearsIncrease(a: nat, b: nat)
    requires 1 <= a < b
    ensures DaysBeforeYear(a) + DaysInYear(a) <= DaysBeforeYear(b)
    decreases b
  {
    YearStep(b - 1);
    if a < b - 1 {
      YearsIncrease(a, b - 1);
    }
  }

  // ----------------------------------------------------------------------- months

  function DaysBeforeMonth(year: nat, month: nat): nat {
    if month <= 1 then 0 else DaysBeforeMonth(year, month - 1) + DaysInMonth(year, month - 1)
  }

  method ComputeDaysBeforeMonth(year: nat, month: nat) returns (days: nat)
    ensures days == DaysBeforeMonth(year, month)
  {
    days := 0;
    var current := 1;
    while current < month
      invariant 1 <= current <= Max(month, 1) && days == DaysBeforeMonth(year, current)
    {
      days := days + DaysInMonth(year, current);
      current := current + 1;
    }
  }

  lemma {:induction false} MonthsIncrease(year: nat, a: nat, b: nat)
    requires 1 <= a < b
    ensures DaysBeforeMonth(year, a) + DaysInMonth(year, a) <= DaysBeforeMonth(year, b)
    decreases b
  {
    if a < b - 1 {
      MonthsIncrease(year, a, b - 1);
    }
  }

  /** The months make up the year. */
  lemma MonthsFillYear(year: nat)
    ensures DaysBeforeMonth(year, 13) == DaysInYear(year)
  {
    var february := DaysInMonth(year, 2);
    assert DaysBeforeMonth(year, 2) == 31;
    MonthsAdd(year, 2);
    MonthsAdd(year, 3);
    MonthsAdd(year, 4);
    MonthsAdd(year, 5);
    MonthsAdd(year, 6);
    MonthsAdd(year, 7);
    MonthsAdd(year, 8);
    MonthsAdd(year, 9);
    MonthsAdd(year, 10);
    MonthsAdd(year, 11);
    MonthsAdd(year, 12);
  }

  lemma MonthsAdd(year: nat, month: nat)
    requires 1 <= month
    ensures DaysBeforeMonth(year, month + 1) == DaysBeforeMonth(year, month) + DaysInMonth(year, month)
  {
  }

  // ------------------------------------------------------------------ seconds

  /** Days since 1 January of year 1. */
  function DayNumber(t: DateTime): nat
    requires IsValid(t)
  {
    DaysBeforeYear(t.year) + DaysBeforeMonth(t.year, t.month) + (t.day - 1)
  }

  function SecondOfDay(t: DateTime): nat {
    t.hour * 3600 + t.minute * 60 + t.second
  }

  function EpochDays(): nat {
    DaysBeforeYear(FIRST_YEAR)
  }

  function UnixSeconds(t: DateTime): (r: Option<nat>)
    ensures r.Some? <==> IsValid(t)
  {
    if !IsValid(t) then None else
      EpochIsFirst(t);
      Some((DayNumber(t) - EpochDays()) * SECONDS_PER_DAY + SecondOfDay(t))
  }

  lemma EpochIsFirst(t: DateTime)
    requires IsValid(t)
    ensures EpochDays() <= DayNumber(t)
  {
    if FIRST_YEAR < t.year {
      YearsIncrease(FIRST_YEAR, t.year);
    }
  }

  /** One past the last second of year 65535. */
  function EndOfTime(): nat {
    (DaysBeforeYear(LAST_YEAR + 1) - EpochDays()) * SECONDS_PER_DAY
  }

  lemma DayInYear(t: DateTime)
    requires IsValid(t)
    ensures DaysBeforeYear(t.year) <= DayNumber(t) < DaysBeforeYear(t.year + 1)
  {
    MonthsFillYear(t.year);
    MonthsIncrease(t.year, t.month, 13);
    YearStep(t.year);
  }

  /** Every valid date has a second before the end of the representable range. */
  lemma SecondsBounded(t: DateTime)
    requires IsValid(t)
    ensures UnixSeconds(t).value < EndOfTime() < U64_END
  {
    EpochIsFirst(t);
    DayInYear(t);
    if t.year < LAST_YEAR {
      YearsIncrease(t.year + 1, LAST_YEAR + 1);
    }
    assert DaysBeforeYear(LAST_YEAR + 1) == 65535 * 365 + 16383 - 655 + 163;
  }

  // ------------------------------------------------------------------ monotonicity

  /** Earlier in the calendar. */
  predicate Before(a: DateTime, b: DateTime) {
    || a.year < b.year
    || (a.year == b.year && a.month < b.month)
    || (a.year == b.year && a.month == b.month && a.day < b.day)
    || (a.year == b.year && a.month == b.month && a.day == b.day && SecondOfDay(a) < SecondOfDay(b))
  }

  lemma DaysMonotone(a: DateTime, b: DateTime)
    requires IsValid(a) && IsValid(b) && Before(a, b)
    ensures DayNumber(a) < DayNumber(b) || (DayNumber(a) == DayNumber(b) && SecondOfDay(a) < SecondOfDay(b))
  {
    if a.year < b.year {
      DayInYear(a);
      DayInYear(b);
      if a.year + 1 < b.year {
        YearsIncrease(a.year + 1, b.year);
      }
    } else if a.month < b.month {
      MonthsIncrease(a.year, a.month, b.month);
    }
  }

  lemma SecondOfDayBound(t: DateTime)
    requires IsValid(t)
    ensures SecondOfDay(t) < SECONDS_PER_DAY
  {
  }

  /** Later dates have later seconds. */
  lemma StrictlyMonotone(a: DateTime, b: DateTime)
    requires IsValid(a) && IsValid(b) && Before(a, b)
    ensures UnixSeconds(a).value < UnixSeconds(b).value
  {
    hide DayNumber, SecondOfDay, Before, IsValid, EpochDays;
    EpochIsFirst(a);
    EpochIsFirst(b);
    DaysMonotone(a, b);
    SecondOfDayBound(a);
    SecondOfDayBound(b);
  }

  lemma Trichotomy(a: DateTime, b: DateTime)
    requires IsValid(a) && IsValid(b)
    ensures a == b || Before(a, b) || Before(b, a)
  {
    if SecondOfDay(a) == SecondOfDay(b) {
      assert a.hour == b.hour && a.minute == b.minute && a.second == b.second;
    }
  }

  /** So a date is determined by its second. */
  lemma Injective(a: DateTime, b: DateTime)
    requires IsValid(a) && IsValid(b) && UnixSeconds(a) == UnixSeconds(b)
    ensures a == b
  {
    hide Before, IsValid;
    Trichotomy(a, b);
    if Before(a, b) {
      StrictlyMonotone(a, b);
    } else if Before(b, a) {
      StrictlyMonotone(b, a);
    }
  }

  /** The days before a month of the Gregorian calendar in closed form. */
  function DayOfYear(year: nat, month: nat): int {
    GregorianDays(month, year % 400 == 0 || (year % 100 != 0 && year % 4 == 0))
  }

  function GregorianDays(month: nat, leap: bool): int {
    (367 * month - 362) / 12 - (if month <= 2 then 0 else if leap then 1 else 2)
  }

  lemma GregorianTable(leap: bool)
    ensures GregorianDays(1, leap) == 0 && GregorianDays(2, leap) == 31
    ensures var march := if leap then 60 else 59;
            && GregorianDays(3, leap) == march && GregorianDays(4, leap) == march + 31
            && GregorianDays(5, leap) == march + 61 && GregorianDays(6, leap) == march + 92
            && GregorianDays(7, leap) == march + 122 && GregorianDays(8, leap) == march + 153
            && GregorianDays(9, leap) == march + 184 && GregorianDays(10, leap) == march + 214
            && GregorianDays(11, leap) == march + 245 && GregorianDays(12, leap) == march + 275
            && GregorianDays(13, leap) == march + 306
  {
  }

  lemma LeapAgrees(year: nat)
    ensures IsLeapYear(year) <==> year % 400 == 0 || (year % 100 != 0 && year % 4 == 0)
  {
    if year % 400 == 0 {
      Quartered(100 * (year / 400));
      assert year == 4 * (100 * (year / 400));
    }
  }

  lemma {:induction false} MonthsClosedForm(year: nat, month: nat)
    requires 1 <= month <= 13
    ensures DaysBeforeMonth(year, month) == DayOfYear(year, month)
    decreases month
  {
    if 1 < month {
      MonthsClosedForm(year, month - 1);
      MonthStep(year, month - 1);
    }
  }

  lemma MonthStep(year: nat, month: nat)
    requires 1 <= month <= 12
    ensures DayOfYear(year, month + 1) == DayOfYear(year, month) + DaysInMonth(year, month)
  {
    LeapAgrees(year);
    GregorianTable(IsLeapYear(year));
    hide IsLeapYear, GregorianDays;
  }

  /** The formula of POSIX.1-2017 XBD section 4.16, in years since 1900 and days since 1 January. */
  function PosixSeconds(t: DateTime): int {
    var tmYear := t.year - 1900;
    var tmYday := DayOfYear(t.year, t.month) + t.day - 1;
    t.second + t.minute * 60 + t.hour * 3600 + tmYday * 86400 + (tmYear - 70) * 31536000
    + (tmYear - 69) / 4 * 86400 - (tmYear - 1) / 100 * 86400 + (tmYear + 299) / 400 * 86400
  }

  lemma AgreesWithPosix(t: DateTime)
    requires IsValid(t)
    ensures UnixSeconds(t).value == PosixSeconds(t)
  {
    MonthsClosedForm(t.year, t.month);
    hide DaysBeforeMonth, DayOfYear;
    EpochIsFirst(t);
    var p := t.year - 1;
    assert p / 4 == 492 + (t.year - 1900 - 69) / 4;
    assert p / 100 == 19 + (t.year - 1900 - 1) / 100;
    assert p / 400 == 4 + (t.year - 1900 + 299) / 400;
    assert EpochDays() == 1969 * 365 + 492 - 19 + 4;
  }

  // ------------------------------------------------------------------ seconds back

  /** The year that contains a day, by binary search over the representable range. */
  method YearOf(absoluteDay: nat) returns (year: nat)
    requires EpochDays() <= absoluteDay
    ensures FIRST_YEAR <= year <= LAST_YEAR && DaysBeforeYear(year) <= absoluteDay
    ensures absoluteDay < DaysBeforeYear(year + 1) || year == LAST_YEAR
  {
    hide DaysBeforeYear;
    var low, high := FIRST_YEAR, LAST_YEAR + 1;
    while low + 1 < high
      invariant FIRST_YEAR <= low < high <= LAST_YEAR + 1 && DaysBeforeYear(low) <= absoluteDay
      invariant absoluteDay < DaysBeforeYear(high) || high == LAST_YEAR + 1
    {
      var mid := low + (high - low) / 2;
      if DaysBeforeYear(mid) <= absoluteDay {
        low := mid;
      } else {
        high := mid;
      }
    }
    return low;
  }

  /** The month that contains a day of the year, and the day within it; 13 past the year's end. */
  method MonthOf(year: nat, dayOfYear: nat) returns (month: nat, day: nat)
    ensures 1 <= month <= 13 && DaysBeforeMonth(year, month) + day == dayOfYear
    ensures month <= 12 ==> day < DaysInMonth(year, month)
  {
    month, day := 1, dayOfYear;
    while month <= 12
      invariant 1 <= month <= 13 && DaysBeforeMonth(year, month) + day == dayOfYear
    {
      var monthDays := DaysInMonth(year, month);
      if day < monthDays {
        break;
      }
      day := day - monthDays;
      month := month + 1;
    }
  }

  /** The inverse of `UnixSeconds` up to the end of year 65535, and nothing beyond. */
  method DatetimeFromUnixSeconds(seconds: nat) returns (r: Option<DateTime>)
    ensures r.Some? <==> seconds < EndOfTime()
    ensures r.Some? ==> IsValid(r.value) && UnixSeconds(r.value) == Some(seconds)
  {
    hide DaysBeforeMonth, DaysBeforeYear;
    var dayIndex := seconds / SECONDS_PER_DAY;
    var secondsInDay := seconds % SECONDS_PER_DAY;
    var absoluteDay := EpochDays() + dayIndex;
    var year := YearOf(absoluteDay);
    var month, day := MonthOf(year, absoluteDay - DaysBeforeYear(year));
    DayRange(year, absoluteDay, month, day);
    EndRange(seconds, absoluteDay);
    if month > 12 {
      return None;
    }
    var t := DateTime(year, month, day + 1, secondsInDay / 3600, secondsInDay % 3600 / 60, secondsInDay % 60);
    SplitDay(secondsInDay);
    EpochIsFirst(t);
    return Some(t);
  }

  lemma DayRange(year: nat, absoluteDay: nat, month: nat, day: nat)
    requires FIRST_YEAR <= year <= LAST_YEAR && DaysBeforeYear(year) <= absoluteDay && 1 <= month <= 13
    requires absoluteDay < DaysBeforeYear(year + 1) || year == LAST_YEAR
    requires DaysBeforeMonth(year, month) + day == absoluteDay - DaysBeforeYear(year)
    requires month <= 12 ==> day < DaysInMonth(year, month)
    ensures month == 13 <==> DaysBeforeYear(LAST_YEAR + 1) <= absoluteDay
  {
    MonthsFillYear(year);
    YearStep(year);
    if month <= 12 {
      MonthsIncrease(year, month, 13);
      if year < LAST_YEAR {
        YearsIncrease(year + 1, LAST_YEAR + 1);
      }
    }
  }

  lemma EndRange(seconds: nat, absoluteDay: nat)
    requires absoluteDay == EpochDays() + seconds / SECONDS_PER_DAY
    ensures seconds < EndOfTime() <==> absoluteDay < DaysBeforeYear(LAST_YEAR + 1)
  {
    YearsIncrease(FIRST_YEAR, LAST_YEAR + 1);
  }

  lemma SplitDay(s: nat)
    requires s < SECONDS_PER_DAY
    ensures s / 3600 < 24 && s % 3600 / 60 < 60 && s % 60 < 60
    ensures s / 3600 * 3600 + s % 3600 / 60 * 60 + s % 60 == s
  {
    assert s % 60 == s % 3600 % 60;
  }

  /** Every valid date survives the trip through seconds. */
  method RoundTrip(t: DateTime) returns (r: Option<DateTime>)
    requires IsValid(t)
    ensures r == Some(t)
  {
    SecondsBounded(t);
    r := DatetimeFromUnixSeconds(UnixSeconds(t).value);
    Injective(r.value, t);
  }
}
