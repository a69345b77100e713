/**
 The calendar of ascdate: seconds since 1 January 1970 as a date, a time and a day of the
 week, with daylight saving time by the rule for March and November.
 */
module Calendar {
  const SECPERDY: int := 86400
  const SECPERHR: int := 3600
  const SECPERMN: int := 60

  const msize: seq<int> := [31, 28, 31, 30, 31, 30, 31, 31, 30, 31, 30, 31]

  datatype Daylight = DstOff | DstOn | DstAuto

  /** month counts from 0, day from 1. */
  datatype Date = Date(year: int, month: int, day: int, hour: int, minute: int, second: int)

  /** The rule that is right from 1970 to 2099. */
  predicate IsLeap(year: int) { year % 4 == 0 }

  predicate Gregorian(year: int) { year % 4 == 0 && (year % 100 != 0 || year % 400 == 0) }

  lemma LeapRule(year: int)
    requires 1970 <= year
    ensures (forall y :: 1970 <= y <= year ==> (IsLeap(y) <==> Gregorian(y))) <==> year < 2100
  {
    if year >= 2100 {
      assert IsLeap(2100) && !Gregorian(2100);
    }
  }

  function YearDays(year: int): int { if IsLeap(year) then 366 else 365 }

  function MonthDays(year: int, month: int): int
    requires 0 <= month < 12
  {
    if month == 1 && IsLeap(year) then 29 else msize[month]
  }

  /** The days from 1 January 1970 to 1 January of the year. */
  function DaysToYear(year: int): (d: int)
    requires year >= 1970
    ensures d >= 0
    decreases year
  {
    if year == 1970 then 0 else DaysToYear(year - 1) + YearDays(year - 1)
  }

  function DaysToMonth(year: int, month: int): int
    requires 0 <= month <= 12
    decreases month
  {
    if month == 0 then 0 else DaysToMonth(year, month - 1) + MonthDays(year, month - 1)
  }

  predicate ValidDate(d: Date) {
    && d.year >= 1970 && 0 <= d.month < 12 && 1 <= d.day <= MonthDays(d.year, d.month)
    && 0 <= d.hour < 24 && 0 <= d.minute < 60 && 0 <= d.second < 60
  }

  function DayNumber(year: int, month: int, day: int): int
    requires year >= 1970 && 0 <= month < 12
  {
    DaysToYear(year) + DaysToMonth(year, month) + day - 1
  }

  /** Seconds since the epoch. */
  function Seconds(d: Date): int
    requires d.year >= 1970 && 0 <= d.month < 12
  {
    DayNumber(d.year, d.month, d.day) * SECPERDY + d.hour * SECPERHR + d.minute * SECPERMN + d.second
  }

  /** 1 January 1970 was a Thursday; Sunday is 0. */
  function Weekday(daynumber: int): int { (4 + daynumber) % 7 }

  // ----- dates are ordered as their seconds are

  function MonthTable(year: int, month: int): int
    requires 0 <= month <= 12
  {
    [0, 31, 59, 90, 120, 151, 181, 212, 243, 273, 304, 334, 365][month] + if month > 1 && IsLeap(year) then 1 else 0
  }

  lemma {:induction false} MonthClosed(year: int, month: int)
    requires 0 <= month <= 12
    ensures DaysToMonth(year, month) == MonthTable(year, month)
    decreases month
  {
    if month > 0 {
      MonthClosed(year, month - 1);
    }
  }

  lemma {:induction false} YearClosed(year: int)
    requires year >= 1970
    ensures DaysToYear(year) == 365 * (year - 1970) + (year - 1969) / 4
    decreases year
  {
    if year > 1970 {
      YearClosed(year - 1);
    }
  }

  lemma {:induction false} YearsGrow(a: int, b: int)
    requires 1970 <= a < b
    ensures DaysToYear(a) + YearDays(a) <= DaysToYear(b)
    decreases b
  {
    if a + 1 < b {
      YearsGrow(a, b - 1);
    }
  }

  lemma DayInYear(year: int, month: int, day: int)
    requires year >= 1970 && 0 <= month < 12 && 1 <= day <= MonthDays(year, month)
    ensures DaysToYear(year) <= DayNumber(year, month, day) < DaysToYear(year) + YearDays(year)
  {
    MonthClosed(year, month);
  }

  lemma SameDay(a: Date, b: Date)
    requires ValidDate(a) && ValidDate(b)
    requires DayNumber(a.year, a.month, a.day) == DayNumber(b.year, b.month, b.day)
    ensures a.year == b.year && a.month == b.month && a.day == b.day
  {
    DayInYear(a.year, a.month, a.day);
    DayInYear(b.year, b.month, b.day);
    if a.year < b.year { YearsGrow(a.year, b.year); }
    if b.year < a.year { YearsGrow(b.year, a.year); }
    MonthClosed(a.year, a.month);
    MonthClosed(b.year, b.month);
  }

  function TimeOfDay(d: Date): int { d.hour * SECPERHR + d.minute * SECPERMN + d.second }

  /** No two valid dates have the same number of seconds. */
  lemma OneDate(a: Date, b: Date)
    requires ValidDate(a) && ValidDate(b) && Seconds(a) == Seconds(b)
    ensures a == b
  {
    hide DayNumber;
    assert 0 <= TimeOfDay(a) < SECPERDY && 0 <= TimeOfDay(b) < SECPERDY;
    SplitOnce(DayNumber(a.year, a.month, a.day), TimeOfDay(a), DayNumber(b.year, b.month, b.day), TimeOfDay(b));
    SameDay(a, b);
    SameTime(a, b);
  }

  lemma SplitOnce(d: int, t: int, e: int, u: int)
    requires 0 <= t < SECPERDY && 0 <= u < SECPERDY && d * SECPERDY + t == e * SECPERDY + u
    ensures d == e && t == u
  {
  }

  lemma SameTime(a: Date, b: Date)
    requires ValidDate(a) && ValidDate(b) && TimeOfDay(a) == TimeOfDay(b)
    ensures a.hour == b.hour && a.minute == b.minute && a.second == b.second
  {
  }

  // ----- the split

  method YearOf(now: int) returns (year: int, rest: int)
    requires now >= 0
    ensures year >= 1970 && 0 <= rest < YearDays(year) * SECPERDY
    ensures now == DaysToYear(year) * SECPERDY + rest
  {
    year, rest := 1970, now;
    var tmp := YearDays(year) * SECPERDY;
    while tmp <= rest
      invariant year >= 1970 && rest >= 0 && tmp == YearDays(year) * SECPERDY
      invariant now == DaysToYear(year) * SECPERDY + rest
      decreases rest
    {
      rest := rest - tmp;
      year := year + 1;
      tmp := YearDays(year) * SECPERDY;
    }
  }

  method MonthOf(year: int, now: int) returns (month: int, rest: int)
    requires 0 <= now < YearDays(year) * SECPERDY
    ensures 0 <= month < 12 && 0 <= rest < MonthDays(year, month) * SECPERDY
    ensures now == DaysToMonth(year, month) * SECPERDY + rest
  {
    month, rest := 0, now;
    while month < 12
      invariant 0 <= month <= 12 && rest >= 0
      invariant now == DaysToMonth(year, month) * SECPERDY + rest
      decreases 12 - month
    {
      var tmp := msize[month] * SECPERDY;
      if month == 1 && IsLeap(year) {
        tmp := tmp + SECPERDY;
      }
      if tmp > rest {
        return;
      }
      rest := rest - tmp;
      month := month + 1;
    }
    MonthClosed(year, 12);
    assert false;
  }

  /** ascdate's arithmetic: the date, the day of the week, and whether the hour was moved. */
  method AscDate(now: int, mode: Daylight) returns (date: Date, dayofweek: int, dst: bool, ghost local: Date)
    requires now >= 0
    ensures ValidDate(local) && Seconds(local) == now
    ensures dayofweek == Weekday(now / SECPERDY)
    ensures dst <==> mode == DstOn || (mode == DstAuto && DaylightDay(local))
    ensures date == if dst then HourLater(local) else local
  {
    var year, rest := YearOf(now);
    var days := rest / SECPERDY;
    var month, inmonth := MonthOf(year, rest);
    var day := inmonth / SECPERDY + 1;
    var left := inmonth % SECPERDY;
    var hour := left / SECPERHR;
    left := left % SECPERHR;
    var minute := left / SECPERMN;
    var second := left % SECPERMN;
    local := Date(year, month, day, hour, minute, second);
    var leapyrs := (year - 1969) / 4;
    var shift := 4 + (year - 1970) + leapyrs;
    var jan1 := shift % 7;
    shift := shift + days;
    dayofweek := shift % 7;
    WeekdayClosed(year, days);
    SplitDays(now, year, rest);
    dst := mode == DstOn;
    if mode == DstAuto {
      WeekdayClosed(year, 0);
      dst := AutoDst(year, month, day, hour, jan1, local);
    }
    date := Date(year, month, day, hour, minute, second);
    if dst {
      hour := hour + 1;
      if hour > 23 {
        hour := 0;
        day := day + 1;
        if day > msize[month] {
          day := 1;
          month := month + 1;
        }
      }
      date := Date(year, month, day, hour, minute, second);
    }
  }

  lemma SplitDays(now: int, year: int, rest: int)
    requires year >= 1970 && 0 <= rest && now == DaysToYear(year) * SECPERDY + rest
    ensures now / SECPERDY == DaysToYear(year) + rest / SECPERDY
  {
  }

  /** The closed form for the day of the week is that of the day number. */
  lemma WeekdayClosed(year: int, days: int)
    requires year >= 1970 && days >= 0
    ensures (4 + (year - 1970) + (year - 1969) / 4 + days) % 7 == Weekday(DaysToYear(year) + days)
  {
    YearClosed(year);
    AddSevens(4 + (year - 1970) + (year - 1969) / 4 + days, 52 * (year - 1970));
  }

  lemma AddSevens(a: int, k: int)
    ensures (a + 7 * k) % 7 == a % 7
  {
  }

  // ----- daylight saving time

  /** The loop over the months and the two Sundays. */
  method AutoDst(year: int, month: int, day: int, hour: int, jan1: int, ghost local: Date) returns (dst: bool)
    requires ValidDate(local) && local.year == year && local.month == month && local.day == day && local.hour == hour
    requires jan1 == Weekday(DaysToYear(year))
    ensures dst <==> DaylightDay(local)
  {
    var leap := if IsLeap(year) then 1 else 0;
    var mar1 := (jan1 + msize[0] + msize[1] + leap) % 7;
    var marss := if mar1 == 0 then 8 else 15 - mar1;
    var nov1 := jan1;
    var i := 0;
    while i < 10
      invariant 0 <= i <= 10
      invariant nov1 + (if i > 1 then leap else 0) == jan1 + DaysToMonth(year, i)
    {
      nov1 := nov1 + msize[i];
      i := i + 1;
    }
    if IsLeap(year) {
      nov1 := nov1 + 1;
    }
    nov1 := nov1 % 7;
    var novfs := if nov1 == 0 then 1 else 8 - nov1;
    Sundays(year);
    if month == 11 || month == 0 || month == 1 {
      dst := false;
    } else if 2 < month < 10 {
      dst := true;
    } else if month == 2 {
      dst := day > marss || (day == marss && hour >= 2);
    } else {
      dst := !(day > novfs || (day == novfs && hour >= 1));
    }
  }

  /** The day of the month that ascdate takes for the second Sunday in March. */
  function MarchSunday(year: int): int
    requires year >= 1970
  {
    var mar1 := (Weekday(DaysToYear(year)) + DaysToMonth(year, 2)) % 7;
    if mar1 == 0 then 8 else 15 - mar1
  }

  function NovemberSunday(year: int): int
    requires year >= 1970
  {
    var nov1 := (Weekday(DaysToYear(year)) + DaysToMonth(year, 10)) % 7;
    if nov1 == 0 then 1 else 8 - nov1
  }

  predicate DaylightDay(d: Date)
    requires d.year >= 1970
  {
    || 2 < d.month < 10
    || (d.month == 2 && (d.day > MarchSunday(d.year) || (d.day == MarchSunday(d.year) && d.hour >= 2)))
    || (d.month == 10 && !(d.day > NovemberSunday(d.year) || (d.day == NovemberSunday(d.year) && d.hour >= 1)))
  }

  lemma WeekdayOf(a: int, b: int)
    ensures (Weekday(a) + b) % 7 == Weekday(a + b)
  {
    assert 4 + a == (4 + a) % 7 + 7 * ((4 + a) / 7);
    AddSevens((4 + a) % 7 + b, (4 + a) / 7);
  }

  lemma DaysLater(a: int, k: int)
    requires 0 <= k <= 14
    ensures Weekday(a + k) == if Weekday(a) + k < 7 then Weekday(a) + k
                              else if Weekday(a) + k < 14 then Weekday(a) + k - 7
                              else Weekday(a) + k - 14
  {
    WeekdayOf(a, k);
  }

  predicate IsSecondMarchSunday(year: int, day: int)
    requires year >= 1970
  {
    8 <= day <= 14 && Weekday(DayNumber(year, 2, day)) == 0
  }

  predicate IsFirstNovemberSunday(year: int, day: int)
    requires year >= 1970
  {
    1 <= day <= 7 && Weekday(DayNumber(year, 10, day)) == 0
  }

  /** There is one second Sunday in March and one first Sunday in November, and ascdate finds them. */
  lemma Sundays(year: int)
    requires year >= 1970
    ensures forall d :: IsSecondMarchSunday(year, d) <==> d == MarchSunday(year)
    ensures forall d :: IsFirstNovemberSunday(year, d) <==> d == NovemberSunday(year)
    ensures DaysToMonth(year, 2) == 59 + (if IsLeap(year) then 1 else 0)
    ensures DaysToMonth(year, 10) == 304 + (if IsLeap(year) then 1 else 0)
  {
    MonthClosed(year, 2);
    MonthClosed(year, 10);
    WeekdayOf(DaysToYear(year), DaysToMonth(year, 2));
    WeekdayOf(DaysToYear(year), DaysToMonth(year, 10));
    var mar1, nov1 := DaysToYear(year) + DaysToMonth(year, 2), DaysToYear(year) + DaysToMonth(year, 10);
    hide Weekday, DaysToYear, DaysToMonth;
    forall d ensures IsSecondMarchSunday(year, d) <==> d == MarchSunday(year) {
      if 1 <= d <= 14 { DaysLater(mar1, d - 1); }
    }
    forall d ensures IsFirstNovemberSunday(year, d) <==> d == NovemberSunday(year) {
      if 1 <= d <= 14 { DaysLater(nov1, d - 1); }
    }
  }

  /** Automatic daylight saving time is on exactly from 2:00 on the second Sunday in March to 1:00
      standard time on the first Sunday in November. */
  lemma DaylightInterval(d: Date, mar: int, nov: int)
    requires ValidDate(d) && IsSecondMarchSunday(d.year, mar) && IsFirstNovemberSunday(d.year, nov)
    ensures DaylightDay(d) <==>
            Seconds(Date(d.year, 2, mar, 2, 0, 0)) <= Seconds(d) < Seconds(Date(d.year, 10, nov, 1, 0, 0))
  {
    Sundays(d.year);
    MonthClosed(d.year, d.month);
    hide Weekday, DaysToYear, DaysToMonth, MarchSunday, NovemberSunday;
    DayOrder(d, 2, mar, 2);
    DayOrder(d, 10, nov, 1);
  }

  /** Dates of one year compare field by field. */
  lemma DayOrder(d: Date, month: int, day: int, hour: int)
    requires ValidDate(d) && 0 <= month < 12 && 1 <= day <= MonthDays(d.year, month) && 0 <= hour < 24
    ensures Seconds(d) >= Seconds(Date(d.year, month, day, hour, 0, 0)) <==>
            d.month > month || (d.month == month && (d.day > day || (d.day == day && d.hour >= hour)))
  {
    hide DaysToYear, DaysToMonth;
    MonthClosed(d.year, d.month);
    MonthClosed(d.year, month);
    var a, b := DayNumber(d.year, d.month, d.day), DayNumber(d.year, month, day);
    assert 0 <= TimeOfDay(d) < SECPERDY;
    assert a < b <==> d.month < month || (d.month == month && d.day < day);
  }

  // ----- the hour added

  /** What ascdate makes of a date when daylight saving time is on. */
  function HourLater(d: Date): Date
    requires 0 <= d.month < 12
  {
    if d.hour + 1 <= 23 then d.(hour := d.hour + 1)
    else if d.day + 1 <= msize[d.month] then d.(hour := 0, day := d.day + 1)
    else d.(hour := 0, day := 1, month := d.month + 1)
  }

  /** The hour added gives the date one hour on, but not in the last hour of the year, nor in the last
      hour of 28 February of a leap year. */
  lemma HourLaterExact(d: Date)
    requires ValidDate(d)
    ensures var r := HourLater(d);
            ValidDate(r) && Seconds(r) == Seconds(d) + SECPERHR
            <==> !(d.hour == 23 && ((d.month == 11 && d.day == 31) || (d.month == 1 && d.day == 28 && IsLeap(d.year))))
  {
    var r := HourLater(d);
    if r.month < 12 {
      MonthClosed(d.year, d.month);
      MonthClosed(d.year, r.month);
    }
    hide DaysToYear, DaysToMonth;
  }

  /** The automatic rule never meets those two hours. */
  lemma AutoHourLater(d: Date)
    requires ValidDate(d) && DaylightDay(d)
    ensures ValidDate(HourLater(d)) && Seconds(HourLater(d)) == Seconds(d) + SECPERHR
  {
    HourLaterExact(d);
  }

  /** With daylight saving time always on, 28 February 1972 at 23:00 is followed by 1 March, and 31
      December 1970 at 23:00 by a thirteenth month. */
  lemma AlwaysOnFails()
    ensures HourLater(Date(1972, 1, 28, 23, 0, 0)) == Date(1972, 2, 1, 0, 0, 0)
    ensures Seconds(Date(1972, 2, 1, 0, 0, 0)) == Seconds(Date(1972, 1, 28, 23, 0, 0)) + 25 * SECPERHR
    ensures !ValidDate(HourLater(Date(1970, 11, 31, 23, 0, 0)))
  {
    MonthClosed(1972, 1);
    MonthClosed(1972, 2);
  }
}
