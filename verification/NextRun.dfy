/** The next run of a schedule, the last day of the month, and what migration does to a job's timing. */
module NextRun {
  import opened Base
  import opened Text
  import opened Calendar
  import opened ScheduleText
  import opened Firing

  const SECOND: int := 1_000_000_000
  const PROBES := 8

  // ------------------------------------------------------- minutes of the day

  /** A minute is its day and its time of day. */
  lemma MinuteParts(m: int, day: int, hour: int, minute: int)
    requires 0 <= hour < 24 && 0 <= minute < 60
    ensures (m / DAY_MINUTES == day && m / 60 % 24 == hour && m % 60 == minute) <==> m == day * DAY_MINUTES + hour * 60 + minute
  {
    assert m == m / 60 * 60 + m % 60;
    assert m / 60 == m / 60 / 24 * 24 + m / 60 % 24;
    assert m / 60 / 24 == m / DAY_MINUTES;
  }

  /** The minute of a date at a time of day. */
  function MinuteAt(d: Date, time: string): int
    requires ParseClockTime(time).Some?
  {
    var (hour, minute) := ParseClockTime(time).value;
    DayNumber(d.year, d.month, d.day) * DAY_MINUTES + hour * 60 + minute
  }

  /** Whether a monthly expression, whatever its day field, fires on a date. */
  lemma FiresOnDate(n: Schedule, dom: Field, d: Date)
    requires n.kind == "monthly" && ValidClockTime(n.time) && ValidDate(d)
    ensures DateOf(MinuteAt(d, n.time) / DAY_MINUTES) == d
    ensures Fires(Meaning(n).(dom := dom), MinuteAt(d, n.time)) <==> d.day in dom.values
  {
    var (hour, minute) := ParseClockTime(n.time).value;
    ClockRoundTrips(n.time);
    DateOfDayNumber(d);
    MinuteParts(MinuteAt(d, n.time), DayNumber(d.year, d.month, d.day), hour, minute);
  }

  /** The firings of a monthly expression: its days, at its time. */
  lemma MonthlyFires(n: Schedule, m: int)
    requires n.kind == "monthly" && ValidClockTime(n.time)
    ensures var (hour, minute) := ParseClockTime(n.time).value;
            var day := m / DAY_MINUTES;
            Fires(Meaning(n), m) <==>
              && m == day * DAY_MINUTES + hour * 60 + minute
              && DateOf(day).day in Meaning(n).dom.values
  {
    hide Range, ParseClockTime, DateOf, MonthLength;
    var (hour, minute) := ParseClockTime(n.time).value;
    ClockRoundTrips(n.time);
    DateRanges(m / DAY_MINUTES);
    MinuteParts(m, m / DAY_MINUTES, hour, minute);
  }

  /** A preset with a time of day fires at that time, on the days its day fields allow. */
  lemma ClockedFires(n: Schedule, m: int)
    requires n.kind in {"daily", "weekly", "monthly"} && ValidClockTime(n.time)
    ensures var (hour, minute) := ParseClockTime(n.time).value;
            Fires(Meaning(n), m) <==>
              m == m / DAY_MINUTES * DAY_MINUTES + hour * 60 + minute && DayAllowed(Meaning(n), m / DAY_MINUTES)
  {
    hide Range, ParseClockTime, DateOf, MonthLength, Weekday, DayAllowed;
    var (hour, minute) := ParseClockTime(n.time).value;
    ClockRoundTrips(n.time);
    DateRanges(m / DAY_MINUTES);
    MinuteParts(m, m / DAY_MINUTES, hour, minute);
  }

  lemma HourlyFires(n: Schedule, m: int)
    requires n.kind == "hourly"
    ensures Fires(Meaning(n), m) <==> m % 60 == n.minute
  {
    hide Range, DateOf, Weekday;
    DateRanges(m / DAY_MINUTES);
  }

  lemma WeekDayAllowed(n: Schedule, day: int)
    requires n.kind in {"daily", "weekly"} && ValidClockTime(n.time)
    ensures DayAllowed(Meaning(n), day) <==> (n.kind == "weekly" ==> Weekday(day) in n.weekdays)
  {
    hide Range, DateOf, Weekday, ParseClockTime;
    DateRanges(day);
  }

  /** An hourly schedule runs in its minute of every hour. */
  lemma HourlyRuns(s: Schedule, m: int)
    requires ValidPreset(s) && Normalized(s).kind == "hourly"
    ensures PlainCron(Cron(s)) == Some(Meaning(Normalized(s)))
    ensures Accepted(s, Meaning(Normalized(s)), m) <==> m % 60 == s.minute
  {
    assert Normalized(s).minute == s.minute;
    hide Normalized, Fires, ShouldRun, PlainCron, Cron, Meaning, ValidPreset;
    PresetMeans(s);
    OnlyMonthlyIsLast(s);
    HourlyFires(Normalized(s), m);
  }

  /** A daily schedule runs at its time of every day. */
  lemma DailyRuns(s: Schedule, m: int)
    requires ValidPreset(s) && Normalized(s).kind == "daily"
    ensures PlainCron(Cron(s)) == Some(Meaning(Normalized(s))) && ParseClockTime(Normalized(s).time).Some?
    ensures var (hour, minute) := ParseClockTime(Normalized(s).time).value;
            Accepted(s, Meaning(Normalized(s)), m) <==> m == m / DAY_MINUTES * DAY_MINUTES + hour * 60 + minute
  {
    assert ValidClockTime(Normalized(s).time) && ParseClockTime(Normalized(s).time).Some?;
    hide Normalized, Fires, ShouldRun, PlainCron, Cron, Meaning, ValidPreset, ParseClockTime, ValidClockTime, DayAllowed;
    PresetMeans(s);
    OnlyMonthlyIsLast(s);
    ClockedFires(Normalized(s), m);
    WeekDayAllowed(Normalized(s), m / DAY_MINUTES);
  }

  /** A weekly schedule runs at its time of the weekdays it names, Sunday being 0. */
  lemma WeeklyRuns(s: Schedule, m: int)
    requires ValidPreset(s) && Normalized(s).kind == "weekly"
    ensures PlainCron(Cron(s)) == Some(Meaning(Normalized(s))) && ParseClockTime(Normalized(s).time).Some?
    ensures var (hour, minute) := ParseClockTime(Normalized(s).time).value;
            Accepted(s, Meaning(Normalized(s)), m) <==>
              m == m / DAY_MINUTES * DAY_MINUTES + hour * 60 + minute && Weekday(m / DAY_MINUTES) in s.weekdays
  {
    assert ValidClockTime(Normalized(s).time) && ParseClockTime(Normalized(s).time).Some?;
    assert forall d :: d in Normalized(s).weekdays <==> d in s.weekdays;
    hide Normalized, Fires, ShouldRun, PlainCron, Cron, Meaning, ValidPreset, ParseClockTime, ValidClockTime, DayAllowed, Weekday;
    PresetMeans(s);
    OnlyMonthlyIsLast(s);
    ClockedFires(Normalized(s), m);
    WeekDayAllowed(Normalized(s), m / DAY_MINUTES);
  }

  /** A monthly schedule on one of the days 1 to 30 runs at its time of that day, in the months that have it. */
  lemma MonthlyRuns(s: Schedule, m: int)
    requires ValidPreset(s) && Normalized(s).kind == "monthly" && s.dayOfMonth < LAST_DAY_OF_MONTH
    ensures PlainCron(Cron(s)) == Some(Meaning(Normalized(s))) && ParseClockTime(Normalized(s).time).Some?
    ensures var (hour, minute) := ParseClockTime(Normalized(s).time).value;
            Accepted(s, Meaning(Normalized(s)), m) <==>
              m == m / DAY_MINUTES * DAY_MINUTES + hour * 60 + minute && DateOf(m / DAY_MINUTES).day == s.dayOfMonth
  {
    assert ValidClockTime(Normalized(s).time) && ParseClockTime(Normalized(s).time).Some?;
    assert Normalized(s).dayOfMonth == s.dayOfMonth;
    hide Normalized, Fires, PlainCron, Cron, ValidPreset, ParseClockTime, ValidClockTime, DateOf, Range;
    PresetMeans(s);
    MonthlyFires(Normalized(s), m);
    assert Meaning(Normalized(s)).dom == Only(s.dayOfMonth);
  }

  lemma OnlyMonthlyIsLast(s: Schedule)
    requires ValidPreset(s) && Normalized(s).kind != "monthly"
    ensures forall m :: ShouldRun(s, m)
  {
    if s.kind == "monthly" {
      MonthlyIsNormal(s);
    }
  }

  /** A star stands for every day. */
  ghost predicate StarsAreFull(c: CronSpec) {
    && (c.dom.star ==> forall d :: 1 <= d <= 31 ==> d in c.dom.values)
    && (c.dow.star ==> forall d :: 0 <= d <= 6 ==> d in c.dow.values)
  }

  lemma PlainStarsAreFull(spec: string)
    requires PlainCron(spec).Some?
    ensures StarsAreFull(PlainCron(spec).value)
  {
    hide Items, Range;
    var f := Fields(spec);
    assert PlainField(f[2], 1, 31).value.star ==> PlainField(f[2], 1, 31).value.values == Range(1, 31);
    assert PlainField(f[4], 0, 6).value.star ==> PlainField(f[4], 0, 6).value.values == Range(0, 6);
  }

  /**
   * When an expression fires on a date at a time: minute, hour and month must be
   * among those named, and so must the day by each of the two day fields that is
   * not a star, except that where neither is one of them is enough.
   */
  lemma FiresAt(c: CronSpec, d: Date, hour: int, minute: int)
    requires StarsAreFull(c) && ValidDate(d) && 0 <= hour < 24 && 0 <= minute < 60
    ensures var day := DayNumber(d.year, d.month, d.day);
            Fires(c, day * DAY_MINUTES + hour * 60 + minute) <==>
              && minute in c.minute.values && hour in c.hour.values && d.month in c.month.values
              && (if !c.dom.star && !c.dow.star then d.day in c.dom.values || Weekday(day) in c.dow.values
                  else (c.dom.star || d.day in c.dom.values) && (c.dow.star || Weekday(day) in c.dow.values))
  {
    hide DateOf, DayNumber, MonthLength, Weekday;
    var day := DayNumber(d.year, d.month, d.day);
    DateOfDayNumber(d);
    DateRanges(day);
    MinuteParts(day * DAY_MINUTES + hour * 60 + minute, day, hour, minute);
  }

  lemma ShouldRunMeans(s: Schedule, m: int)
    ensures ShouldRun(s, m) <==> (IsLastDay(s) ==> LastDayOfItsMonth(m / DAY_MINUTES))
  {
    var d := DateOf(m / DAY_MINUTES);
    DaysInMonthIsLength(d.year, d.month);
  }

  // -------------------------------------------------------------- last days

  lemma MonthlyIsNormal(s: Schedule)
    requires ValidPreset(s) && s.kind == "monthly"
    ensures Normalized(s).kind == "monthly" && ValidClockTime(Normalized(s).time)
    ensures Normalized(s).dayOfMonth == s.dayOfMonth
  {
    TrimWord("monthly");
    assert forall i :: 0 <= i < |"monthly"| ==> !('A' <= "monthly"[i] <= 'Z');
  }

  /** The minute a last-day schedule runs in a month. */
  function LastDayRun(time: string, y: int, month: int): int
    requires 1 <= month <= 12 && ParseClockTime(time).Some?
  {
    MinuteAt(Date(y, month, MonthLength(y, month)), time)
  }

  predicate InMonth(m: int, y: int, month: int) {
    DateOf(m / DAY_MINUTES).year == y && DateOf(m / DAY_MINUTES).month == month
  }

  /** In every month of every year, a last-day schedule runs once: on the last day, at its time. */
  lemma LastDayRunsOncePerMonth(s: Schedule, y: int, month: int, m: int)
    requires ValidPreset(s) && IsLastDay(s) && 1 <= month <= 12
    ensures PlainCron(Cron(s)) == Some(Meaning(Normalized(s))) && ParseClockTime(Normalized(s).time).Some?
    ensures InMonth(m, y, month) && Accepted(s, Meaning(Normalized(s)), m) <==> m == LastDayRun(Normalized(s).time, y, month)
  {
    MonthlyIsNormal(s);
    PresetMeans(s);
    LastDayRunIs(s, Normalized(s), y, month, m);
  }

  lemma LastDayRunIs(s: Schedule, n: Schedule, y: int, month: int, m: int)
    requires IsLastDay(s) && n.kind == "monthly" && n.dayOfMonth == s.dayOfMonth && ValidClockTime(n.time) && 1 <= month <= 12
    ensures InMonth(m, y, month) && Accepted(s, Meaning(n), m) <==> m == LastDayRun(n.time, y, month)
  {
    hide Range, DateOf, Fires, ShouldRun, DayNumber, MonthLength;
    var (hour, minute) := ParseClockTime(n.time).value;
    var day := m / DAY_MINUTES;
    var last := Date(y, month, MonthLength(y, month));
    var lastDay := DayNumber(y, month, last.day);
    MonthLengths(y, month);
    DateOfDayNumber(last);
    DayNumberOfDate(day);
    MonthlyFires(n, m);
    ShouldRunMeans(s, m);
    ClockRoundTrips(n.time);
    MinuteParts(m, lastDay, hour, minute);
    MinuteParts(m, day, hour, minute);
  }

  /**
   * The last-day rule looks at the kind as written: a schedule whose kind only
   * reads "monthly" after tidying would run on each of the last four days of
   * every January.
   */
  lemma UntidyLastDayRunsFourTimes(s: Schedule, y: int)
    requires ValidPreset(s) && Normalized(s).kind == "monthly" && s.dayOfMonth == LAST_DAY_OF_MONTH && s.kind != "monthly"
    ensures ParseClockTime(Normalized(s).time).Some?
    ensures forall d :: 28 <= d <= 31 ==> Accepted(s, Meaning(Normalized(s)), MinuteAt(Date(y, 1, d), Normalized(s).time))
  {
    var n := Normalized(s);
    assert ValidClockTime(n.time) && n.dayOfMonth == LAST_DAY_OF_MONTH;
    assert ParseClockTime(n.time).Some?;
    MonthLengths(y, 1);
    hide ValidPreset, Normalized, Fires, MinuteAt, ParseClockTime, ValidClockTime, MonthLength, DateOf;
    forall d | 28 <= d <= 31
      ensures Accepted(s, Meaning(n), MinuteAt(Date(y, 1, d), n.time))
    {
      FiresOnDate(n, Meaning(n).dom, Date(y, 1, d));
      assert Meaning(n).(dom := Meaning(n).dom) == Meaning(n);
    }
  }

  // ---------------------------------------------------------------- migration

  /** The legacy expression's firings, and those of the schedule it becomes. */
  ghost predicate KeepsItsTiming(spec: string)
    requires SchedulePreset(spec).Some? && PlainCron(spec).Some? && PlainCron(Cron(SchedulePreset(spec).value)).Some?
  {
    var p := SchedulePreset(spec).value;
    forall m :: Accepted(p, PlainCron(Cron(p)).value, m) <==> Fires(PlainCron(spec).value, m)
  }

  /**
   * A recognised legacy expression keeps its firing minutes exactly when its day
   * of the month is neither 31 nor 28-31; those two become the last day of every
   * month.
   */
  lemma MigrationKeepsTimingIff(spec: string)
    requires SchedulePreset(spec).Some?
    ensures PlainCron(spec).Some? && PlainCron(Cron(SchedulePreset(spec).value)).Some?
    ensures KeepsItsTiming(spec) <==> !IsLastDay(SchedulePreset(spec).value)
    ensures IsLastDay(SchedulePreset(spec).value) <==>
              (Fields(spec)[2] == LAST_DAY_CRON_DAYS || CronInt(Fields(spec)[2], 1, 31) == Some(31))
  {
    hide SchedulePreset, Fires, Cron, ValidPreset, Normalized, PlainCron, Fields, CronInt, ParseClockTime;
    var p := SchedulePreset(spec).value;
    MigrationMeans(spec);
    LastDayFields(spec);
    if IsLastDay(p) {
      LastDayMigrationDiffers(spec);
    } else {
      assert forall m :: ShouldRun(p, m);
    }
  }

  /** What a recognised legacy expression and the one its preset generates mean. */
  lemma MigrationMeans(spec: string)
    requires SchedulePreset(spec).Some?
    ensures var p := SchedulePreset(spec).value;
            && PlainCron(spec).Some? && PlainCron(Cron(p)).Some?
            && (!IsLastDay(p) ==> PlainCron(spec) == PlainCron(Cron(p)))
  {
    PresetKeepsFields(spec);
    PresetMeans(SchedulePreset(spec).value);
    hide Cron, ValidPreset, Normalized, Meaning, PlainFields;
  }

  lemma LastDayFields(spec: string)
    requires SchedulePreset(spec).Some?
    ensures IsLastDay(SchedulePreset(spec).value) <==>
              (Fields(spec)[2] == LAST_DAY_CRON_DAYS || CronInt(Fields(spec)[2], 1, 31) == Some(31))
  {
    var f := Fields(spec);
    hide ClockText, CronIntList;
    assert !AllDigits("*") by {
      assert "*"[0] == '*';
    }
  }

  lemma LastDayMigrationDiffers(spec: string)
    requires SchedulePreset(spec).Some? && IsLastDay(SchedulePreset(spec).value)
    requires PlainCron(spec).Some? && PlainCron(Cron(SchedulePreset(spec).value)).Some?
    ensures !KeepsItsTiming(spec)
  {
    var p := SchedulePreset(spec).value;
    PresetKeepsFields(spec);
    PresetMeans(p);
    assert ValidClockTime(p.time) && ParseClockTime(p.time).Some?;
    DifferentDays(p, PlainCron(spec).value);
  }

  /** 28 January fires under 28-31 and is no last day; 30 April is a last day and no 31st. */
  lemma DifferentDays(p: Schedule, c: CronSpec)
    requires IsLastDay(p) && ValidClockTime(p.time) && ParseClockTime(p.time).Some?
    requires c == Meaning(p) || c == Meaning(p).(dom := Only(31))
    ensures exists m :: Accepted(p, Meaning(p), m) != Fires(c, m)
  {
    hide Fires, ShouldRun, MinuteAt, ParseClockTime, ValidClockTime, MonthLength, DateOf, Range;
    var d := if c == Meaning(p) then Date(2001, 1, 28) else Date(2001, 4, 30);
    var m := MinuteAt(d, p.time);
    MonthLengths(d.year, d.month);
    FiresOnDate(p, c.dom, d);
    FiresOnDate(p, Meaning(p).dom, d);
    assert Meaning(p).(dom := c.dom) == c;
    assert Meaning(p).(dom := Meaning(p).dom) == Meaning(p);
    ShouldRunMeans(p, m);
    assert Accepted(p, Meaning(p), m) != Fires(c, m);
  }

  /** What a legacy last-day or 31st-of-the-month expression becomes: one run a month, on its last day. */
  lemma LastDayMigration(spec: string, y: int, month: int, m: int)
    requires SchedulePreset(spec).Some? && IsLastDay(SchedulePreset(spec).value) && 1 <= month <= 12
    ensures PlainCron(Cron(SchedulePreset(spec).value)).Some? && ParseClockTime(SchedulePreset(spec).value.time).Some?
    ensures var p := SchedulePreset(spec).value;
            InMonth(m, y, month) && Accepted(p, PlainCron(Cron(p)).value, m) <==> m == LastDayRun(p.time, y, month)
  {
    PresetKeepsFields(spec);
    LastDayRunsOncePerMonth(SchedulePreset(spec).value, y, month, m);
  }

  /** An expression no preset can say is kept as it was, so its timing cannot change. */
  lemma OtherExpressionsAreKept(raw: string)
    requires Trim(raw) != "" && Trim(raw) != "manual" && SchedulePreset(Trim(raw)).None?
    ensures Cron(ParseLegacySchedule(raw)) == Trim(raw)
  {
    TrimTwice(raw);
    TrimWord("advanced");
    assert forall i :: 0 <= i < |"advanced"| ==> !('A' <= "advanced"[i] <= 'Z');
  }

  // ----------------------------------------------------------------- next run

  /** The first firing from `m` on, before `end`. */
  function FirstFrom(c: CronSpec, m: int, end: int): Option<int>
    decreases end - m
  {
    if m >= end then None else if Fires(c, m) then Some(m) else FirstFrom(c, m + 1, end)
  }

  /** No minute in a range fires. */
  ghost predicate NoneFires(c: CronSpec, m: int, end: int) {
    forall j :: m <= j < end ==> !Fires(c, j)
  }

  lemma {:induction false} FirstFromIsFirst(c: CronSpec, m: int, end: int)
    ensures var r := FirstFrom(c, m, end);
            if r.Some? then m <= r.value < end && Fires(c, r.value) && NoneFires(c, m, r.value)
            else NoneFires(c, m, end)
    decreases end - m
  {
    if m < end && !Fires(c, m) {
      FirstFromIsFirst(c, m + 1, end);
      hide Fires;
      var r := FirstFrom(c, m + 1, end);
      OneMore(c, m, if r.Some? then r.value else end);
    }
  }

  lemma OneMore(c: CronSpec, m: int, end: int)
    requires !Fires(c, m) && NoneFires(c, m + 1, end)
    ensures NoneFires(c, m, end)
  {
  }

  /** The last year the search looks at, five after that of the next whole second. */
  function YearLimit(now: int): int {
    YearOf((now / SECOND + 1) * SECOND / DAY) + 5
  }

  /** The first minute no longer searched. */
  function Horizon(now: int): int {
    YearStart(YearLimit(now) + 1) * DAY_MINUTES
  }

  /** What is searched: up to the end of the fifth year after that of the next whole second. */
  lemma HorizonIs(now: int, m: int)
    ensures m < Horizon(now) <==> DateOf(m / DAY_MINUTES).year <= DateOf((now / SECOND + 1) * SECOND / DAY).year + 5
  {
    hide YearStart, YearOf;
    BeforeYearEnd(m / DAY_MINUTES, YearLimit(now));
    DateYear(m / DAY_MINUTES);
    DateYear((now / SECOND + 1) * SECOND / DAY);
  }

  lemma DateYear(day: int)
    ensures DateOf(day).year == YearOf(day)
  {
  }

  lemma BeforeYearEnd(day: int, limit: int)
    ensures day < YearStart(limit + 1) <==> YearOf(day) <= limit
  {
    var y := YearOf(day);
    hide YearStart, YearOf;
    if y <= limit {
      YearStartMonotone(y + 1, limit + 1);
    } else {
      YearStartMonotone(limit + 1, y);
    }
  }

  /** The first firing later than an instant, if there is one by the year limit. */
  function CronNext(c: CronSpec, now: int): Option<int> {
    FirstFrom(c, now / MINUTE + 1, Horizon(now))
  }

  /** The search finds the first later firing, or there is none by the year limit. */
  lemma CronNextIsFirst(c: CronSpec, now: int)
    ensures var r := CronNext(c, now);
            if r.Some? then now / MINUTE + 1 <= r.value < Horizon(now) && Fires(c, r.value) && NoneFires(c, now / MINUTE + 1, r.value)
            else NoneFires(c, now / MINUTE + 1, Horizon(now))
  {
    FirstFromIsFirst(c, now / MINUTE + 1, Horizon(now));
  }

  function Parse(spec: string, other: string -> Option<CronSpec>): Option<CronSpec> {
    var plain := PlainCron(spec);
    if plain.Some? then plain else other(spec)
  }

  ghost predicate LeastLaterRun(s: Schedule, c: CronSpec, now: int, k: int) {
    && Accepted(s, c, k)
    && k * MINUTE > now
    && forall j :: Accepted(s, c, j) && j * MINUTE > now ==> k <= j
  }

  lemma LaterMinute(now: int, j: int)
    ensures j * MINUTE > now <==> j >= now / MINUTE + 1
  {
  }

  lemma WholeSecond(now: int)
    ensures now / MINUTE + 1 <= (now / SECOND + 1) * SECOND / DAY * DAY_MINUTES + DAY_MINUTES
  {
    var t := (now / SECOND + 1) * SECOND;
    assert now < t;
    assert t < (t / DAY + 1) * DAY;
    assert DAY == DAY_MINUTES * MINUTE;
    LaterMinute(now, t / DAY * DAY_MINUTES + DAY_MINUTES);
  }

  /** Two years on is later than now, and well before the year limit. */
  lemma TwoYearsOn(now: int, day: int, x: int)
    requires YearStart(YearLimit(now) - 3) <= day <= YearStart(YearLimit(now) - 3) + 31 && 0 <= x < DAY_MINUTES
    ensures now / MINUTE + 1 <= day * DAY_MINUTES + x < Horizon(now)
  {
    var today := (now / SECOND + 1) * SECOND / DAY;
    var y := YearOf(today);
    WholeSecond(now);
    YearStartMonotone(y + 1, y + 2);
    YearStartMonotone(y + 2, y + 6);
    assert today + 1 <= day && day + 1 <= YearStart(y + 6);
  }

  /** The day a preset surely fires, in January two years on. */
  function SureDay(n: Schedule, first: int): int {
    if n.kind == "weekly" && n.weekdays != [] then first + (n.weekdays[0] - Weekday(first)) % 7
    else if n.kind == "monthly" then first + (if n.dayOfMonth >= LAST_DAY_OF_MONTH then 31 else n.dayOfMonth) - 1
    else first
  }

  /** Days 1 to 31 and months 1 to 12 are all there are. */
  lemma DateRanges(day: int)
    ensures 1 <= DateOf(day).day <= 31 && 1 <= DateOf(day).month <= 12
  {
    MonthLengths(DateOf(day).year, DateOf(day).month);
  }

  lemma InJanuary(y: int, d: int)
    requires 1 <= d <= 31
    ensures DateOf(YearStart(y) + d - 1) == Date(y, 1, d)
  {
    hide MonthLength, DateOf, DayNumber, DaysBefore, YearStart;
    MonthLengths(y, 1);
    DayNumberInYear(y, 1, d);
    NothingBeforeJanuary(IsLeap(y));
    DateOfDayNumber(Date(y, 1, d));
  }

  lemma NothingBeforeJanuary(leap: bool)
    ensures DaysBefore(1, leap) == 0
  {
  }

  lemma WeekdayIsReached(first: int, w: int)
    requires 0 <= w <= 6
    ensures Weekday(first + (w - Weekday(first)) % 7) == w
  {
  }

  /** A valid preset, tidied. */
  ghost predicate Sane(n: Schedule) {
    && n.kind in {"hourly", "daily", "weekly", "monthly"}
    && (n.kind == "hourly" ==> 0 <= n.minute <= 59)
    && (n.kind != "hourly" ==> ValidClockTime(n.time))
    && (n.kind == "weekly" ==> n.weekdays != [] && forall d :: d in n.weekdays ==> 0 <= d <= 6)
    && (n.kind == "monthly" ==> 1 <= n.dayOfMonth)
  }

  lemma SureDayIsAllowed(n: Schedule, y: int)
    requires Sane(n)
    ensures var day := SureDay(n, YearStart(y));
            YearStart(y) <= day <= YearStart(y) + 31 && DayAllowed(Meaning(n), day) && DateOf(day).month in Meaning(n).month.values
  {
    hide Range, DateOf, Weekday, ParseClockTime, YearStart, MonthLength;
    var first := YearStart(y);
    var day := SureDay(n, first);
    DateRanges(day);
    if n.kind == "weekly" {
      assert n.weekdays[0] in n.weekdays;
      WeekdayIsReached(first, n.weekdays[0]);
    } else if n.kind == "monthly" {
      InJanuary(y, day - first + 1);
    }
    assert DateOf(day).month in Meaning(n).month.values;
    assert DayAllowed(Meaning(n), day);
  }

  lemma FiresOnAllowedDay(c: CronSpec, day: int, hour: int, minute: int)
    requires 0 <= hour < 24 && 0 <= minute < 60 && hour in c.hour.values && minute in c.minute.values
    requires DayAllowed(c, day) && DateOf(day).month in c.month.values
    ensures Fires(c, day * DAY_MINUTES + hour * 60 + minute)
  {
    hide DayAllowed, DateOf;
    MinuteParts(day * DAY_MINUTES + hour * 60 + minute, day, hour, minute);
  }

  /** The time of day a preset fires at is one its fields allow. */
  lemma ClockIsAllowed(n: Schedule)
    requires Sane(n)
    ensures PresetClock(n).0 in Meaning(n).hour.values && PresetClock(n).1 in Meaning(n).minute.values
  {
    ClockIsKnown(n);
    hide ParseClockTime, ValidClockTime, Range;
  }

  /** A valid preset fires again before the search gives up. */
  lemma PresetFiresAgain(n: Schedule, now: int)
    requires Sane(n)
    ensures CronNext(Meaning(n), now).Some?
  {
    hide Sane, Meaning, CronNext, YearLimit, YearStart, DayAllowed, DateOf, SureDay, PresetClock, ParseClockTime;
    MeansSomething(n);
    ClockIsKnown(n);
    ClockIsAllowed(n);
    SureDayIsAllowed(n, YearLimit(now) - 3);
    AllowedInTime(Meaning(n), now, SureDay(n, YearStart(YearLimit(now) - 3)), PresetClock(n).0, PresetClock(n).1);
  }

  /** An expression that allows a day two years on, and a time, fires in time. */
  lemma AllowedInTime(c: CronSpec, now: int, day: int, hour: int, minute: int)
    requires YearStart(YearLimit(now) - 3) <= day <= YearStart(YearLimit(now) - 3) + 31
    requires 0 <= hour < 24 && 0 <= minute < 60 && hour in c.hour.values && minute in c.minute.values
    requires DayAllowed(c, day) && DateOf(day).month in c.month.values
    ensures CronNext(c, now).Some?
  {
    hide DayAllowed, DateOf, Fires, Horizon, CronNext, YearLimit, YearStart;
    FiresOnAllowedDay(c, day, hour, minute);
    TwoYearsOn(now, day, hour * 60 + minute);
    FoundInTime(c, now, day * DAY_MINUTES + hour * 60 + minute);
  }

  lemma MeansSomething(n: Schedule)
    requires Sane(n)
    ensures n.kind in {"hourly", "daily", "weekly", "monthly"} && (n.kind != "hourly" ==> ParseClockTime(n.time).Some?)
  {
  }

  lemma FoundInTime(c: CronSpec, now: int, m: int)
    requires Fires(c, m) && now / MINUTE + 1 <= m < Horizon(now)
    ensures CronNext(c, now).Some?
  {
    hide Fires, Horizon, CronNext;
    CronNextIsFirst(c, now);
  }

  /** A time of day a preset fires at. */
  function PresetClock(n: Schedule): (int, int) {
    if n.kind == "hourly" then (0, n.minute)
    else if ParseClockTime(n.time).Some? then ParseClockTime(n.time).value
    else (0, 0)
  }

  lemma ClockIsKnown(n: Schedule)
    requires Sane(n)
    ensures n.kind != "hourly" ==> ParseClockTime(n.time) == Some(PresetClock(n))
    ensures 0 <= PresetClock(n).0 < 24 && 0 <= PresetClock(n).1 < 60
  {
    if n.kind != "hourly" {
      ClockRoundTrips(n.time);
    }
  }

  /** The day after one that is not the last of its month. */
  lemma Tomorrow(day: int)
    requires !LastDayOfItsMonth(day)
    ensures DateOf(day + 1) == DateOf(day).(day := DateOf(day).day + 1) && DateOf(day).day <= 30
  {
    var d := DateOf(day);
    DayNumberOfDate(day);
    MonthLengths(d.year, d.month);
    NextDayNumber(d);
    hide DateOf, MonthLength, DayNumber;
    DateOfDayNumber(d.(day := d.day + 1));
  }

  lemma NextDayNumber(d: Date)
    ensures DayNumber(d.year, d.month, d.day + 1) == DayNumber(d.year, d.month, d.day) + 1
  {
  }

  lemma NextDay(k: int)
    ensures (k + DAY_MINUTES) / DAY_MINUTES == k / DAY_MINUTES + 1
  {
  }

  /** A rejected firing of a last-day schedule is followed by the same time on the next day. */
  lemma RejectedThenTomorrow(s: Schedule, n: Schedule, k: int)
    requires n.kind == "monthly" && n.dayOfMonth >= LAST_DAY_OF_MONTH && ValidClockTime(n.time)
    requires IsLastDay(s) && Fires(Meaning(n), k) && !ShouldRun(s, k)
    ensures Fires(Meaning(n), k + DAY_MINUTES)
    ensures DateOf((k + DAY_MINUTES) / DAY_MINUTES).day == DateOf(k / DAY_MINUTES).day + 1
    ensures 28 <= DateOf(k / DAY_MINUTES).day <= 30
  {
    hide Range, DateOf, ParseClockTime, Fires, ShouldRun, LastDayOfItsMonth, ValidClockTime;
    ShouldRunMeans(s, k);
    MonthlyFires(n, k);
    Tomorrow(k / DAY_MINUTES);
    NextDay(k);
    MonthlyFires(n, k + DAY_MINUTES);
  }

  /** Two minutes at one time of day are a day apart or more. */
  lemma DayApart(k: int, j: int, time: int)
    ensures k == k / DAY_MINUTES * DAY_MINUTES + time && j == j / DAY_MINUTES * DAY_MINUTES + time && k < j ==> k + DAY_MINUTES <= j
  {
    var a, b := k / DAY_MINUTES, j / DAY_MINUTES;
    assert a * DAY_MINUTES < b * DAY_MINUTES ==> (a + 1) * DAY_MINUTES <= b * DAY_MINUTES;
  }

  /** Nothing else fires within a day of a monthly firing. */
  lemma NoneBefore(n: Schedule, k: int, j: int)
    requires n.kind == "monthly" && ValidClockTime(n.time) && Fires(Meaning(n), k) && Fires(Meaning(n), j) && k < j
    ensures k + DAY_MINUTES <= j
  {
    MonthlyFires(n, k);
    MonthlyFires(n, j);
    var (hour, minute) := ParseClockTime(n.time).value;
    hide Fires, DateOf, ParseClockTime, Range;
    DayApart(k, j, hour * 60 + minute);
  }

  lemma PresetHasCron(s: Schedule)
    requires ValidPreset(s)
    ensures Cron(s) != "" && PlainCron(Cron(s)) == Some(Meaning(Normalized(s)))
  {
    PresetMeans(s);
    assert PlainCron("").None?;
  }

  /** A probe of a valid preset finds a firing; after a rejected one it is a day later in the month. */
  lemma PresetProbe(s: Schedule, at: int)
    requires ValidPreset(s)
    ensures PlainCron(Cron(s)) == Some(Meaning(Normalized(s)))
    ensures CronNext(Meaning(Normalized(s)), at).Some?
    ensures var c := Meaning(Normalized(s));
            var k := CronNext(c, at).value;
            && (IsLastDay(s) && Fires(c, k) ==> DateOf(k / DAY_MINUTES).day >= 28)
            && (IsLastDay(s) && at % MINUTE == 0 && Fires(c, at / MINUTE) && !ShouldRun(s, at / MINUTE) ==>
                  && DateOf(at / MINUTE / DAY_MINUTES).day <= 30
                  && DateOf(k / DAY_MINUTES).day == DateOf(at / MINUTE / DAY_MINUTES).day + 1)
  {
    var n := Normalized(s);
    PresetHasCron(s);
    PresetIsSane(s);
    hide ValidPreset, Normalized, Cron, Sane, Fires, ShouldRun, DateOf, CronNext, ParseClockTime;
    PresetFiresAgain(n, at);
    if IsLastDay(s) {
      MonthlyIsNormal(s);
      LastDayProbe(s, n, at);
    }
  }

  lemma PresetIsSane(s: Schedule)
    requires ValidPreset(s)
    ensures Sane(Normalized(s))
  {
    hide Normalized, ValidClockTime;
  }

  lemma LastDayProbe(s: Schedule, n: Schedule, at: int)
    requires IsLastDay(s) && n.kind == "monthly" && n.dayOfMonth >= LAST_DAY_OF_MONTH && ValidClockTime(n.time)
    requires CronNext(Meaning(n), at).Some?
    ensures var k := CronNext(Meaning(n), at).value;
            && DateOf(k / DAY_MINUTES).day >= 28
            && (at % MINUTE == 0 && Fires(Meaning(n), at / MINUTE) && !ShouldRun(s, at / MINUTE) ==>
                  && DateOf(at / MINUTE / DAY_MINUTES).day <= 30
                  && DateOf(k / DAY_MINUTES).day == DateOf(at / MINUTE / DAY_MINUTES).day + 1)
  {
    hide Range, DateOf, Fires, ShouldRun, ParseClockTime, Horizon, CronNext;
    CronNextIsFirst(Meaning(n), at);
    var k := CronNext(Meaning(n), at).value;
    MonthlyFires(n, k);
    var last := at / MINUTE;
    if at % MINUTE == 0 && Fires(Meaning(n), last) && !ShouldRun(s, last) {
      RejectedThenTomorrow(s, n, last);
      NoneBefore(n, last, k);
      assert k == last + DAY_MINUTES;
    }
  }

  /** With everything up to `at` ruled out, the first accepted firing after it is the least. */
  lemma LeastIsNext(s: Schedule, c: CronSpec, now: int, at: int, k: int)
    requires at >= now && CronNext(c, at) == Some(k) && ShouldRun(s, k)
    requires forall j :: now / MINUTE + 1 <= j <= at / MINUTE ==> !Accepted(s, c, j)
    ensures LeastLaterRun(s, c, now, k)
  {
    CronNextIsFirst(c, at);
    LaterMinute(at, k);
    forall j | Accepted(s, c, j) && j * MINUTE > now
      ensures k <= j
    {
      LaterMinute(now, j);
      LaterMinute(at, j);
    }
  }

  /** A valid preset, or a last-day schedule whose time is in range or missing. */
  predicate Runnable(s: Schedule) {
    ValidPreset(s)
    || (IsLastDay(s) && (ParseClockTime(Normalized(s).time).None? || ValidClockTime(Normalized(s).time)))
  }

  /** A valid preset that runs when a runnable schedule does. */
  function StandIn(s: Schedule): Schedule {
    if ValidPreset(s) then s
    else s.(dayOfMonth := LAST_DAY_OF_MONTH, time := if ParseClockTime(Normalized(s).time).None? then "00:00" else s.time)
  }

  lemma Midnight()
    ensures ParseClockTime("00:00") == Some((0, 0)) && Trim("00:00") == "00:00"
  {
    ClockDigits("00:00");
    TrimWord("00:00");
  }

  lemma StandsIn(s: Schedule)
    requires Runnable(s)
    ensures ValidPreset(StandIn(s)) && Cron(StandIn(s)) == Cron(s) && IsLastDay(StandIn(s)) == IsLastDay(s)
    ensures forall k :: ShouldRun(StandIn(s), k) == ShouldRun(s, k)
  {
    if !ValidPreset(s) {
      hide ParseClockTime, Trim, Decimal, DateOf, DaysInMonth;
      Midnight();
      MonthlyKind();
    }
  }

  lemma MonthlyKind()
    ensures Lower(Trim("monthly")) == "monthly"
  {
    TrimWord("monthly");
    assert forall i :: 0 <= i < |"monthly"| ==> !('A' <= "monthly"[i] <= 'Z');
  }

  /** The minute falls in the year of the next whole second, in the five after it, or earlier. */
  predicate WithinFiveYears(now: int, m: int) {
    DateOf(m / DAY_MINUTES).year <= DateOf((now / SECOND + 1) * SECOND / DAY).year + 5
  }

  lemma NoneWithin(c: CronSpec, now: int)
    requires NoneFires(c, now / MINUTE + 1, Horizon(now))
    ensures forall j :: j * MINUTE > now && WithinFiveYears(now, j) ==> !Fires(c, j)
  {
    hide Fires, Horizon, DateOf;
    forall j | j * MINUTE > now && WithinFiveYears(now, j)
      ensures !Fires(c, j)
    {
      HorizonIs(now, j);
      LaterMinute(now, j);
    }
  }

  /**
   * The next real run: the least later minute in which the schedule's expression
   * fires and its last-day rule agrees.  A valid enabled preset always has one, and
   * so has any last-day schedule whose time is in range.
   * `other` stands for the cron syntax beyond stars, numbers, ranges and lists.
   */
  method NextRun(s: Schedule, enabled: bool, now: int, other: string -> Option<CronSpec>) returns (next: Option<int>)
    ensures !enabled || Cron(s) == "" || Parse(Cron(s), other).None? ==> next.None?
    ensures next.Some? ==>
              && Parse(Cron(s), other).Some? && next.value % MINUTE == 0
              && LeastLaterRun(s, Parse(Cron(s), other).value, now, next.value / MINUTE)
    ensures enabled && Runnable(s) ==> next.Some?
    ensures next.None? && enabled && Cron(s) != "" && !IsLastDay(s) ==>
              var c := Parse(Cron(s), other);
              c.Some? ==> forall j :: j * MINUTE > now && WithinFiveYears(now, j) ==> !Fires(c.value, j)
  {
    hide Cron, Runnable, StandIn, ValidPreset, Fires, ShouldRun, Horizon, DateOf, PlainCron, CronNext, WithinFiveYears;
    var spec := Cron(s);
    ghost var v := StandIn(s);
    if Runnable(s) {
      StandsIn(s);
      PresetHasCron(v);
    }
    if !enabled || spec == "" {
      return None;
    }
    var parsed := Parse(spec, other);
    if parsed.None? {
      return None;
    }
    var c := parsed.value;
    var at := now;
    for i := 0 to PROBES
      invariant at >= now && (i == 0 ==> at == now)
      invariant forall j :: now / MINUTE + 1 <= j <= at / MINUTE ==> !Accepted(s, c, j)
      invariant i > 0 ==> IsLastDay(s) && at % MINUTE == 0 && Fires(c, at / MINUTE) && !ShouldRun(s, at / MINUTE)
      invariant i > 0 && Runnable(s) ==> DateOf(at / MINUTE / DAY_MINUTES).day >= 27 + i
    {
      var found := CronNext(c, at);
      CronNextIsFirst(c, at);
      if Runnable(s) {
        PresetProbe(v, at);
      }
      if found.None? {
        if i == 0 {
          NoneWithin(c, now);
        }
        return None;
      }
      var k := found.value;
      WholeMinute(at, k);
      if ShouldRun(s, k) {
        LeastIsNext(s, c, now, at, k);
        return Some(k * MINUTE);
      }
      OnlyLastDaysAreRejected(s, k);
      at := k * MINUTE;
    }
    if Runnable(s) {
      PresetProbe(v, at);
    }
    return None;
  }

  lemma WholeMinute(at: int, k: int)
    requires k >= at / MINUTE + 1
    ensures k * MINUTE / MINUTE == k && k * MINUTE % MINUTE == 0 && k * MINUTE > at
  {
  }

  lemma OnlyLastDaysAreRejected(s: Schedule, k: int)
    requires !ShouldRun(s, k)
    ensures IsLastDay(s)
  {
  }
}
