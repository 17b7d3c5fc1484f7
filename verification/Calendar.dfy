/** The proleptic Gregorian calendar in UTC, and ISO weeks (section 2.2.10 of ISO 8601:2004). */
module Calendar {
  /** Instants are nanoseconds since 0000-01-01T00:00:00Z. */
  const DAY: int := 86_400_000_000_000

  predicate IsLeap(y: int) {
    y % 4 == 0 && (y % 100 != 0 || y % 400 == 0)
  }

  function YearLength(y: int): int {
    if IsLeap(y) then 366 else 365
  }

  /** Days from 0000-01-01 to the first day of year `y`. */
  function YearStart(y: int): int {
    365 * y + (y + 3) / 4 - (y + 99) / 100 + (y + 399) / 400
  }

  lemma DivStep4(y: int)
    ensures (y + 4) / 4 - (y + 3) / 4 == if y % 4 == 0 then 1 else 0
  {
  }

  lemma DivStep100(y: int)
    ensures (y + 100) / 100 - (y + 99) / 100 == if y % 100 == 0 then 1 else 0
  {
  }

  lemma DivStep400(y: int)
    ensures (y + 400) / 400 - (y + 399) / 400 == if y % 400 == 0 then 1 else 0
  {
  }

  lemma YearStartStep(y: int)
    ensures YearStart(y + 1) == YearStart(y) + YearLength(y)
  {
    DivStep4(y);
    DivStep100(y);
    DivStep400(y);
    Multiples(y);
  }

  lemma Multiples(y: int)
    ensures y % 400 == 0 ==> y % 100 == 0
    ensures y % 100 == 0 ==> y % 4 == 0
  {
    if y % 400 == 0 {
      HundredTimes(y, 4 * (y / 400));
    }
    if y % 100 == 0 {
      FourTimes(y, 25 * (y / 100));
    }
  }

  lemma HundredTimes(y: int, z: int)
    requires y == 100 * z
    ensures y % 100 == 0
  {
  }

  lemma FourTimes(y: int, z: int)
    requires y == 4 * z
    ensures y % 4 == 0
  {
  }

  lemma YearStartBounds(y: int)
    ensures 146097 * y - 396 <= 400 * YearStart(y) <= 146097 * y + 699
  {
  }

  /** The year a day falls in. */
  function YearOf(day: int): (y: int)
    ensures YearStart(y) <= day < YearStart(y + 1)
  {
    var g := day * 400 / 146097;
    YearStartBounds(g - 1);
    YearStartBounds(g + 2);
    if day < YearStart(g) then g - 1
    else if day >= YearStart(g + 1) then g + 1
    else g
  }

  lemma {:induction false} YearStartMonotone(a: int, b: int)
    requires a <= b
    ensures YearStart(a) + 365 * (b - a) <= YearStart(b)
    decreases b - a
  {
    if a < b {
      YearStartStep(b - 1);
      YearStartMonotone(a, b - 1);
    }
  }

  /** A day's year is the only one whose span holds it. */
  lemma YearUnique(day: int, y: int)
    requires YearStart(y) <= day < YearStart(y + 1)
    ensures YearOf(day) == y
  {
    var z := YearOf(day);
    if z < y {
      YearStartMonotone(z + 1, y);
    } else if y < z {
      YearStartMonotone(y + 1, z);
    }
  }

  // ------------------------------------------------------------------ months

  /** Days of the year before month `m` (1 to 13). */
  function DaysBefore(m: int, leap: bool): int
    requires 1 <= m <= 13
  {
    var extra := if leap && m > 2 then 1 else 0;
    [0, 31, 59, 90, 120, 151, 181, 212, 243, 273, 304, 334, 365][m - 1] + extra
  }

  function MonthLength(y: int, m: int): int
    requires 1 <= m <= 12
  {
    DaysBefore(m + 1, IsLeap(y)) - DaysBefore(m, IsLeap(y))
  }

  lemma MonthLengths(y: int, m: int)
    requires 1 <= m <= 12
    ensures MonthLength(y, m) ==
            if m == 2 then (if IsLeap(y) then 29 else 28)
            else if m in {4, 6, 9, 11} then 30 else 31
  {
  }

  function MonthFrom(yday: int, leap: bool, m: int): (r: int)
    requires 1 <= m <= 12 && DaysBefore(m, leap) <= yday < DaysBefore(13, leap)
    ensures m <= r <= 12 && DaysBefore(r, leap) <= yday < DaysBefore(r + 1, leap)
    decreases 12 - m
  {
    if yday < DaysBefore(m + 1, leap) then m else MonthFrom(yday, leap, m + 1)
  }

  datatype Date = Date(year: int, month: int, day: int)

  predicate ValidDate(d: Date) {
    1 <= d.month <= 12 && 1 <= d.day <= MonthLength(d.year, d.month)
  }

  /** The civil date of a day number. */
  function DateOf(day: int): (d: Date)
    ensures ValidDate(d)
  {
    var y := YearOf(day);
    YearStartStep(y);
    var yday := day - YearStart(y);
    var m := MonthFrom(yday, IsLeap(y), 1);
    Date(y, m, yday - DaysBefore(m, IsLeap(y)) + 1)
  }

  /** The day number of a civil date; days and months outside their range carry over. */
  function DayNumber(y: int, m: int, d: int): int {
    var y1 := y + (m - 1) / 12;
    var m1 := (m - 1) % 12 + 1;
    YearStart(y1) + DaysBefore(m1, IsLeap(y1)) + d - 1
  }

  lemma DaysBetween(a: int, b: int, leap: bool)
    requires 1 <= a <= b <= 13
    ensures DaysBefore(a, leap) + 28 * (b - a) <= DaysBefore(b, leap)
  {
  }

  lemma MonthUnique(yday: int, leap: bool, m: int)
    requires 1 <= m <= 12 && 0 <= yday < DaysBefore(13, leap)
    requires DaysBefore(m, leap) <= yday < DaysBefore(m + 1, leap)
    ensures MonthFrom(yday, leap, 1) == m
  {
    var r := MonthFrom(yday, leap, 1);
    if r < m {
      DaysBetween(r + 1, m, leap);
    } else if m < r {
      DaysBetween(m + 1, r, leap);
    }
  }

  lemma DayNumberInYear(y: int, m: int, d: int)
    requires 1 <= m <= 12
    ensures DayNumber(y, m, d) == YearStart(y) + DaysBefore(m, IsLeap(y)) + d - 1
  {
  }

  /** The days of a valid date's year that have passed. */
  function YearDay(d: Date): (n: int)
    requires ValidDate(d)
    ensures DaysBefore(d.month, IsLeap(d.year)) <= n < DaysBefore(d.month + 1, IsLeap(d.year))
    ensures 0 <= n < YearLength(d.year)
  {
    DaysBetween(1, d.month, IsLeap(d.year));
    DaysBetween(d.month + 1, 13, IsLeap(d.year));
    DaysBefore(d.month, IsLeap(d.year)) + d.day - 1
  }

  lemma DateOfDayNumber(d: Date)
    requires ValidDate(d)
    ensures DateOf(DayNumber(d.year, d.month, d.day)) == d
  {
    var yday := YearDay(d);
    var n := YearStart(d.year) + yday;
    DayNumberInYear(d.year, d.month, d.day);
    assert DayNumber(d.year, d.month, d.day) == n;
    YearStartStep(d.year);
    YearUnique(n, d.year);
    MonthUnique(yday, IsLeap(d.year), d.month);
    assert DateOf(n).month == d.month;
  }

  lemma DayNumberOfDate(day: int)
    ensures var d := DateOf(day); DayNumber(d.year, d.month, d.day) == day
  {
    hide DayNumber, DaysBefore, YearStart;
    var d := DateOf(day);
    DayNumberInYear(d.year, d.month, d.day);
  }

  /** The date that follows. */
  function NextDate(d: Date): Date
    requires ValidDate(d)
  {
    if d.day < MonthLength(d.year, d.month) then d.(day := d.day + 1)
    else if d.month < 12 then Date(d.year, d.month + 1, 1)
    else Date(d.year + 1, 1, 1)
  }

  /** Day 0 is 1 January of year 0, and each later or earlier day is one date on or back. */
  lemma CalendarSteps(day: int)
    ensures DateOf(0) == Date(0, 1, 1)
    ensures DateOf(day + 1) == NextDate(DateOf(day))
  {
    hide DateOf, DayNumber, DaysBefore, MonthLength;
    var d := DateOf(day);
    DayNumberOfDate(day);
    NextDayNumbers(d);
    MonthLengths(NextDate(d).year, NextDate(d).month);
    DateOfDayNumber(NextDate(d));
    DayZero();
  }

  lemma NextDayNumbers(d: Date)
    requires ValidDate(d)
    ensures var e := NextDate(d); DayNumber(e.year, e.month, e.day) == DayNumber(d.year, d.month, d.day) + 1
  {
    hide YearStart;
    YearStartStep(d.year);
    var e := NextDate(d);
    DayNumberInYear(d.year, d.month, d.day);
    DayNumberInYear(e.year, e.month, e.day);
  }

  lemma DayZero()
    ensures DateOf(0) == Date(0, 1, 1)
  {
    hide DateOf, DayNumber, MonthLength;
    NumberZero();
    MonthLengths(0, 1);
    DateOfDayNumber(Date(0, 1, 1));
  }

  lemma NumberZero()
    ensures DayNumber(0, 1, 1) == 0
  {
  }

  /** Years divisible by 4 have a 366th day, but for centuries not divisible by 400; 1970 is where Unix time starts. */
  lemma KnownDates()
    ensures YearLength(2023) == 365 && YearLength(2024) == 366 && YearLength(1900) == 365 && YearLength(2000) == 366
    ensures DayNumber(1970, 1, 1) == 719528
    ensures Weekday(DayNumber(2024, 1, 1)) == 1
  {
  }

  /** The length of a month, asked for as the day before the first of the next one. */
  function DaysInMonth(y: int, m: int): int {
    DateOf(DayNumber(y, m + 1, 0)).day
  }

  lemma DaysInMonthIsLength(y: int, m: int)
    requires 1 <= m <= 12
    ensures DaysInMonth(y, m) == MonthLength(y, m)
  {
    var last := Date(y, m, MonthLength(y, m));
    MonthLengths(y, m);
    DayBeforeNextMonth(y, m);
    hide DateOf, DayNumber, DaysBefore;
    DateOfDayNumber(last);
  }

  lemma DayBeforeNextMonth(y: int, m: int)
    requires 1 <= m <= 12
    ensures DayNumber(y, m + 1, 0) == DayNumber(y, m, MonthLength(y, m))
  {
    hide YearStart;
    YearStartStep(y);
  }

  // --------------------------------------------------------- order of dates

  predicate DateBefore(a: Date, b: Date) {
    a.year < b.year || (a.year == b.year && (a.month < b.month || (a.month == b.month && a.day < b.day)))
  }

  /** Later days have later dates: years first, then months, then days of the month. */
  lemma DateOrder(a: int, b: int)
    ensures a < b <==> DateBefore(DateOf(a), DateOf(b))
    ensures a == b <==> DateOf(a) == DateOf(b)
  {
    DayNumberOfDate(a);
    DayNumberOfDate(b);
    var da, db := DateOf(a), DateOf(b);
    if DateBefore(da, db) {
      EarlierDate(da, db);
    } else if DateBefore(db, da) {
      EarlierDate(db, da);
    } else {
      assert da == db;
    }
  }

  lemma EarlierDate(a: Date, b: Date)
    requires ValidDate(a) && ValidDate(b) && DateBefore(a, b)
    ensures DayNumber(a.year, a.month, a.day) < DayNumber(b.year, b.month, b.day)
  {
    hide DayNumber, DaysBefore, YearStart;
    DayNumberInYear(a.year, a.month, a.day);
    DayNumberInYear(b.year, b.month, b.day);
    var x, y := YearDay(a), YearDay(b);
    if a.year < b.year {
      YearStartStep(a.year);
      YearStartMonotone(a.year + 1, b.year);
    } else if a.month < b.month {
      DaysBetween(a.month + 1, b.month, IsLeap(a.year));
    }
    assert YearStart(a.year) + x < YearStart(b.year) + y;
  }

  // ------------------------------------------------------------------- weeks

  /** Day of the week, Sunday 0 to Saturday 6. */
  function Weekday(day: int): (w: int)
    ensures 0 <= w < 7
  {
    (day + 6) % 7
  }

  /** The weekday after Saturday is Sunday again. */
  lemma WeekdaySteps(day: int)
    ensures Weekday(day + 1) == if Weekday(day) == 6 then 0 else Weekday(day) + 1
  {
  }

  /** The Thursday of a day's ISO week. */
  function Thursday(day: int): int {
    var d := 4 - Weekday(day);
    day + (if d == 4 then -3 else d)
  }

  datatype IsoWeek = IsoWeek(year: int, week: int)

  /** The year and number of the ISO week: those of its Thursday. */
  function IsoWeekOf(day: int): IsoWeek {
    var t := Thursday(day);
    IsoWeek(YearOf(t), (t - YearStart(YearOf(t))) / 7 + 1)
  }

  /** Weeks counted from Monday 0000-01-03. */
  function WeekIndex(day: int): int {
    (day - 2) / 7
  }

  lemma ThursdayOfWeek(day: int)
    ensures Thursday(day) == 7 * WeekIndex(day) + 5
  {
  }

  /** Week 1 of a year is the one with 4 January in it. */
  lemma FirstIsoWeek(y: int)
    ensures IsoWeekOf(YearStart(y) + 3) == IsoWeek(y, 1)
  {
    var t := Thursday(YearStart(y) + 3);
    YearStartStep(y);
    YearUnique(t, y);
  }

  predicate WeekBefore(a: IsoWeek, b: IsoWeek) {
    a.year < b.year || (a.year == b.year && a.week < b.week)
  }

  /** Later weeks have later numbers, the year counting first. */
  lemma IsoWeekOrder(a: int, b: int)
    ensures WeekIndex(a) < WeekIndex(b) <==> WeekBefore(IsoWeekOf(a), IsoWeekOf(b))
  {
    if WeekIndex(a) < WeekIndex(b) {
      EarlierWeek(a, b);
    } else if WeekIndex(b) < WeekIndex(a) {
      EarlierWeek(b, a);
    } else {
      IsoWeekIdentifiesWeek(a, b);
    }
  }

  lemma EarlierWeek(a: int, b: int)
    requires WeekIndex(a) < WeekIndex(b)
    ensures WeekBefore(IsoWeekOf(a), IsoWeekOf(b))
  {
    ThursdayOfWeek(a);
    ThursdayOfWeek(b);
    var t, u := Thursday(a), Thursday(b);
    hide YearStart, YearOf, Thursday, WeekIndex;
    assert t + 7 <= u;
    if YearOf(u) < YearOf(t) {
      YearStartMonotone(YearOf(u) + 1, YearOf(t));
    }
  }

  /** Two days share an ISO year and week number exactly when they fall in the same Monday-to-Sunday week. */
  lemma IsoWeekIdentifiesWeek(a: int, b: int)
    ensures IsoWeekOf(a) == IsoWeekOf(b) <==> WeekIndex(a) == WeekIndex(b)
  {
    ThursdayOfWeek(a);
    ThursdayOfWeek(b);
  }
}
