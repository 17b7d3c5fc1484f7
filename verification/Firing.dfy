/** When a schedule fires: the meaning of its cron expression, the last-day rule and the next run. */
module Firing {
  import opened Base
  import opened Text
  import opened Calendar
  import opened ScheduleText

  const MINUTE: int := 60_000_000_000
  const DAY_MINUTES := 1440

  /** A cron field: the values it allows, and whether it was written as a star. */
  datatype Field = Field(star: bool, values: set<int>)

  datatype CronSpec = CronSpec(minute: Field, hour: Field, dom: Field, month: Field, dow: Field)

  function Range(lo: int, hi: int): (s: set<int>)
    ensures forall x :: x in s <==> lo <= x <= hi
    decreases hi - lo + 1
  {
    if lo > hi then {} else {lo} + Range(lo + 1, hi)
  }

  // ------------------------------------------- the plain part of cron's syntax

  /** A number or a range of numbers. */
  function Item(part: string, lo: int, hi: int): Option<set<int>> {
    var ends := Split(part, '-');
    if |ends| == 1 then
      var n := CronInt(part, lo, hi);
      if n.None? then None else Some({n.value})
    else if |ends| == 2 then
      var a := CronInt(ends[0], lo, hi);
      var b := CronInt(ends[1], lo, hi);
      if a.None? || b.None? || a.value > b.value then None else Some(Range(a.value, b.value))
    else None
  }

  function Items(parts: seq<string>, lo: int, hi: int): Option<set<int>> {
    if parts == [] then Some({}) else
      var first := Item(parts[0], lo, hi);
      var rest := Items(parts[1..], lo, hi);
      if first.None? || rest.None? then None else Some(first.value + rest.value)
  }

  function PlainField(text: string, lo: int, hi: int): Option<Field> {
    if text == "*" then Some(Field(true, Range(lo, hi))) else
      var values := Items(Split(text, ','), lo, hi);
      if values.None? then None else Some(Field(false, values.value))
  }

  /** Five fields of stars, numbers, ranges and lists; None for any other syntax. */
  function PlainFields(f: seq<string>): Option<CronSpec>
    requires |f| == 5
  {
    var minute := PlainField(f[0], 0, 59);
    var hour := PlainField(f[1], 0, 23);
    var dom := PlainField(f[2], 1, 31);
    var month := PlainField(f[3], 1, 12);
    var dow := PlainField(f[4], 0, 6);
    if minute.None? || hour.None? || dom.None? || month.None? || dow.None? then None
    else Some(CronSpec(minute.value, hour.value, dom.value, month.value, dow.value))
  }

  function PlainCron(spec: string): Option<CronSpec> {
    var f := Fields(spec);
    if |f| != 5 then None else PlainFields(f)
  }

  // ---------------------------------------------------------------- the meaning

  /** The day fields: both must allow the day if either is a star, one suffices otherwise. */
  predicate DayAllowed(c: CronSpec, day: int) {
    var dom := DateOf(day).day in c.dom.values;
    var dow := Weekday(day) in c.dow.values;
    if c.dom.star || c.dow.star then dom && dow else dom || dow
  }

  /** Whether the expression fires in a minute, counted from the start of year 0. */
  predicate Fires(c: CronSpec, m: int) {
    && m % 60 in c.minute.values
    && m / 60 % 24 in c.hour.values
    && DateOf(m / DAY_MINUTES).month in c.month.values
    && DayAllowed(c, m / DAY_MINUTES)
  }

  /** Whether a firing is a real occurrence of the schedule. */
  predicate ShouldRun(s: Schedule, m: int) {
    if s.kind != "monthly" || s.dayOfMonth < LAST_DAY_OF_MONTH then true
    else
      var d := DateOf(m / DAY_MINUTES);
      d.day == DaysInMonth(d.year, d.month)
  }

  predicate IsLastDay(s: Schedule) {
    s.kind == "monthly" && s.dayOfMonth >= LAST_DAY_OF_MONTH
  }

  predicate LastDayOfItsMonth(day: int) {
    DateOf(day).day == MonthLength(DateOf(day).year, DateOf(day).month)
  }

  predicate Accepted(s: Schedule, c: CronSpec, m: int) {
    Fires(c, m) && ShouldRun(s, m)
  }

  // ---------------------------------------------------------- preset meanings

  function Only(x: int): Field {
    Field(false, {x})
  }

  /** What a normalised preset means. */
  function Meaning(n: Schedule): CronSpec
    requires n.kind in {"hourly", "daily", "weekly", "monthly"} && (n.kind != "hourly" ==> ParseClockTime(n.time).Some?)
  {
    var any := CronSpec(Only(n.minute), Field(true, Range(0, 23)), Field(true, Range(1, 31)), Field(true, Range(1, 12)), Field(true, Range(0, 6)));
    if n.kind == "hourly" then any else
      var (hour, minute) := ParseClockTime(n.time).value;
      var daily := any.(minute := Only(minute), hour := Only(hour));
      if n.kind == "daily" then daily
      else if n.kind == "weekly" then daily.(dow := Field(false, set d | d in n.weekdays))
      else daily.(dom := if n.dayOfMonth >= LAST_DAY_OF_MONTH then Field(false, Range(28, 31)) else Only(n.dayOfMonth))
  }

  lemma PlainNumber(text: string, lo: int, hi: int)
    requires CronInt(text, lo, hi).Some?
    ensures Item(text, lo, hi) == Some({CronInt(text, lo, hi).value})
    ensures PlainField(text, lo, hi) == Some(Only(CronInt(text, lo, hi).value))
  {
    DigitsAreWords(text);
    SplitFirst(text, '-', "");
    SplitFirst(text, ',', "");
    var n := CronInt(text, lo, hi).value;
    SingleItem(text, lo, hi);
  }

  lemma SingleItem(part: string, lo: int, hi: int)
    requires Item(part, lo, hi).Some?
    ensures Items([part], lo, hi) == Item(part, lo, hi)
  {
    hide Item;
    assert [part][1..] == [];
    assert Item(part, lo, hi).value + {} == Item(part, lo, hi).value;
  }

  lemma TwoDigits(n: int)
    requires 10 <= n <= 31
    ensures Decimal(n) == [Digit(n / 10), Digit(n % 10)]
    ensures CronInt([Digit(n / 10), Digit(n % 10)], 1, 31) == Some(n)
  {
    CronIntDecimal(n, 1, 31);
    assert Itoa(n / 10) == [Digit(n / 10)];
  }

  lemma LastDaysField()
    ensures PlainField(LAST_DAY_CRON_DAYS, 1, 31) == Some(Field(false, Range(28, 31)))
  {
    TwoDigits(28);
    TwoDigits(31);
    assert LAST_DAY_CRON_DAYS == "28" + ['-'] + "31";
    SplitFirst("28", '-', "31");
    SplitFirst("31", '-', "");
    hide CronInt;
    assert Split(LAST_DAY_CRON_DAYS, '-') == ["28", "31"];
    assert Item(LAST_DAY_CRON_DAYS, 1, 31) == Some(Range(28, 31));
    SplitFirst(LAST_DAY_CRON_DAYS, ',', "");
    SingleItem(LAST_DAY_CRON_DAYS, 1, 31);
  }

  lemma {:induction false} PlainList(parts: seq<string>, lo: int, hi: int)
    requires CronInts(parts, lo, hi).Some? && forall i :: 0 <= i < |parts| ==> Trim(parts[i]) == parts[i]
    ensures Items(parts, lo, hi) == Some(set d | d in CronInts(parts, lo, hi).value)
  {
    if parts == [] {
      assert (set d: int | d in []) == {};
    } else {
      PlainNumber(parts[0], lo, hi);
      PlainList(parts[1..], lo, hi);
      hide Item, CronInt;
      var first := CronInt(parts[0], lo, hi).value;
      var rest := CronInts(parts[1..], lo, hi).value;
      assert CronInts(parts, lo, hi).value == [first] + rest;
      assert (set d | d in [first] + rest) == {first} + set d | d in rest;
    }
  }

  lemma PlainDays(text: string)
    requires IsWord(text) && CronIntList(text, 0, 6).Some? && text != "*"
    ensures PlainField(text, 0, 6) == Some(Field(false, set d | d in CronIntList(text, 0, 6).value))
  {
    var parts := Split(text, ',');
    assert forall x :: x in text ==> !IsSpace(x);
    forall i | 0 <= i < |parts|
      ensures Trim(parts[i]) == parts[i]
    {
      SplitPartsAreWithin(text, ',', i);
      assert forall j :: 0 <= j < |parts[i]| ==> parts[i][j] in parts[i];
      TrimWord(parts[i]);
    }
    PlainList(parts, 0, 6);
    var ns := CronInts(parts, 0, 6).value;
    assert (set d | d in ns) == (set d | d in NormalDays(ns));
  }

  lemma {:induction false} SplitPartsAreWithin(s: string, c: char, i: nat)
    requires i < |Split(s, c)|
    ensures forall x :: x in Split(s, c)[i] ==> x in s
    decreases |s|
  {
    var n := Find(s, c, 0);
    if n < |s| && i > 0 {
      SplitPartsAreWithin(s[n + 1..], c, i - 1);
    }
  }

  /** A valid preset's expression means what the preset says. */
  lemma PresetMeans(s: Schedule)
    requires ValidPreset(s)
    ensures PlainCron(Cron(s)) == Some(Meaning(Normalized(s)))
  {
    var n := Normalized(s);
    CronIsItsFields(s);
    FieldsGiveThePreset(s);
    ReadsBack(CronFields(n));
    if n.kind == "hourly" {
      CronIntDecimal(n.minute, 0, 59);
      PlainNumber(Decimal(n.minute), 0, 59);
    } else {
      ClockedMeans(n);
    }
  }

  lemma ClockedMeans(n: Schedule)
    requires n.kind in {"daily", "weekly", "monthly"} && ValidClockTime(n.time)
    requires n.kind == "weekly" ==> n.weekdays != [] && forall d :: d in n.weekdays ==> 0 <= d <= 6
    requires n.kind == "monthly" ==> 1 <= n.dayOfMonth
    ensures PlainFields(CronFields(n)) == Some(Meaning(n))
  {
    hide PlainField, ParseClockTime, CronInt, Decimal, Range, ClockText, IsWord, AllDigits, Join;
    var (hour, minute) := ParseClockTime(n.time).value;
    ClockRoundTrips(n.time);
    CronIntDecimal(minute, 0, 59);
    CronIntDecimal(hour, 0, 23);
    PlainNumber(Decimal(minute), 0, 59);
    PlainNumber(Decimal(hour), 0, 23);
    DayFieldsMean(n);
    StarField(1, 31);
    StarField(1, 12);
    StarField(0, 6);
  }

  lemma StarField(lo: int, hi: int)
    ensures PlainField("*", lo, hi) == Some(Field(true, Range(lo, hi)))
  {
  }

  lemma DayFieldsMean(n: Schedule)
    requires n.kind in {"daily", "weekly", "monthly"}
    requires n.kind == "weekly" ==> n.weekdays != [] && forall d :: d in n.weekdays ==> 0 <= d <= 6
    requires n.kind == "monthly" ==> 1 <= n.dayOfMonth
    ensures var f := CronFields(n);
            && PlainField(f[2], 1, 31)
                 == Some(if n.kind != "monthly" then Field(true, Range(1, 31))
                         else if n.dayOfMonth >= LAST_DAY_OF_MONTH then Field(false, Range(28, 31)) else Only(n.dayOfMonth))
            && PlainField(f[4], 0, 6) == Some(if n.kind == "weekly" then Field(false, set d | d in n.weekdays) else Field(true, Range(0, 6)))
  {
    StarField(1, 31);
    StarField(0, 6);
    if n.kind == "weekly" {
      DayListRoundTrips(n.weekdays, 0, 6);
      PlainDays(Join(Decimals(n.weekdays), ','));
      assert (set d | d in NormalDays(n.weekdays)) == (set d | d in n.weekdays);
    } else if n.kind == "monthly" {
      if n.dayOfMonth >= LAST_DAY_OF_MONTH {
        LastDaysField();
      } else {
        CronIntDecimal(n.dayOfMonth, 1, 31);
        PlainNumber(Decimal(n.dayOfMonth), 1, 31);
      }
    }
  }

  // ---------------------------------------------------------------- migration

  lemma NormalPreset(p: Schedule)
    requires p.kind in {"hourly", "daily", "weekly", "monthly"} && Trim(p.time) == p.time && p.cronExpr == "" && Increasing(p.weekdays)
    ensures Normalized(p) == p
  {
    TrimWord(p.kind);
    assert forall i :: 0 <= i < |p.kind| ==> !('A' <= p.kind[i] <= 'Z');
    IncreasingUnique(NormalDays(p.weekdays), p.weekdays);
  }

  lemma {:induction false} CronIntsInRange(parts: seq<string>, lo: int, hi: int)
    requires CronInts(parts, lo, hi).Some?
    ensures |CronInts(parts, lo, hi).value| == |parts|
    ensures forall d :: d in CronInts(parts, lo, hi).value ==> lo <= d <= hi
  {
    if parts != [] {
      CronIntsInRange(parts[1..], lo, hi);
    }
  }

  /** Days given as a legacy expression's two day fields. */
  lemma DailyPresetShape(clock: string, dom: string, dow: string)
    requires DailyPreset(clock, dom, dow).Some? && IsWord(dow)
    ensures var p := DailyPreset(clock, dom, dow).value;
            && p.kind in {"daily", "weekly", "monthly"} && p.time == clock && p.cronExpr == "" && Increasing(p.weekdays)
            && (p.kind == "weekly" ==> p.weekdays != [] && forall d :: d in p.weekdays ==> 0 <= d <= 6)
            && (p.kind == "monthly" ==> 1 <= p.dayOfMonth <= 31 && (dom == LAST_DAY_CRON_DAYS ==> p.dayOfMonth == 31))
            && PlainField(dow, 0, 6) == Some(if p.kind == "weekly" then Field(false, set d | d in p.weekdays) else Field(true, Range(0, 6)))
            && PlainField(dom, 1, 31)
                 == Some(if p.kind != "monthly" then Field(true, Range(1, 31))
                         else if dom == LAST_DAY_CRON_DAYS then Field(false, Range(28, 31)) else Only(p.dayOfMonth))
  {
    StarField(1, 31);
    StarField(0, 6);
    if dom == "*" && dow == "*" {
    } else if dom == "*" {
      PlainDays(dow);
      var parts := Split(dow, ',');
      CronIntsInRange(parts, 0, 6);
      var ns := CronInts(parts, 0, 6).value;
      assert ns[0] in NormalDays(ns);
    } else if dom == LAST_DAY_CRON_DAYS {
      LastDaysField();
    } else {
      PlainNumber(dom, 1, 31);
    }
  }

  /** What a preset read from five fields keeps of them. */
  ghost predicate KeepsFields(f: seq<string>, p: Schedule)
    requires |f| == 5
  {
    && Normalized(p) == p && ValidPreset(p)
    && PlainFields(f) == Some(if IsLastDay(p) && f[2] != LAST_DAY_CRON_DAYS then Meaning(p).(dom := Only(31)) else Meaning(p))
  }

  lemma HourlyMinute(f: seq<string>)
    requires |f| == 5 && PresetOf(f).Some? && f[1] == "*"
    ensures 0 <= PresetOf(f).value.minute <= 59
  {
  }

  lemma HourlyKeepsFields(f: seq<string>)
    requires |f| == 5 && PresetOf(f).Some? && f[1] == "*"
    ensures KeepsFields(f, PresetOf(f).value)
  {
    hide PlainField, CronIntList, Range, DailyPreset, ParseClockTime, CronInt;
    PlainNumber(f[0], 0, 59);
    StarField(1, 12);
    StarField(0, 23);
    StarField(1, 31);
    StarField(0, 6);
    assert Trim("") == "";
    HourlyMinute(f);
    NormalPreset(PresetOf(f).value);
  }

  lemma ClockedKeepsFields(f: seq<string>)
    requires |f| == 5 && PresetOf(f).Some? && f[1] != "*" && IsWord(f[4])
    ensures KeepsFields(f, PresetOf(f).value)
  {
    var hour, minute := CronInt(f[1], 0, 23).value, CronInt(f[0], 0, 59).value;
    var p := PresetOf(f).value;
    assert f[3] == "*" && DailyPreset(ClockText(hour, minute), f[2], f[4]) == Some(p);
    DailyPresetShape(ClockText(hour, minute), f[2], f[4]);
    ClockedPresetIsValid(p, hour, minute);
    FieldsMean(f, p, hour, minute);
  }

  lemma FieldsMean(f: seq<string>, p: Schedule, hour: int, minute: int)
    requires |f| == 5 && f[3] == "*" && p.kind in {"daily", "weekly", "monthly"}
    requires CronInt(f[0], 0, 59) == Some(minute) && CronInt(f[1], 0, 23) == Some(hour) && ParseClockTime(p.time) == Some((hour, minute))
    requires PlainField(f[4], 0, 6) == Some(if p.kind == "weekly" then Field(false, set d | d in p.weekdays) else Field(true, Range(0, 6)))
    requires PlainField(f[2], 1, 31)
               == Some(if p.kind != "monthly" then Field(true, Range(1, 31))
                       else if f[2] == LAST_DAY_CRON_DAYS then Field(false, Range(28, 31)) else Only(p.dayOfMonth))
    requires p.kind == "monthly" ==> 1 <= p.dayOfMonth <= 31 && (f[2] == LAST_DAY_CRON_DAYS ==> p.dayOfMonth == 31)
    ensures PlainFields(f) == Some(if IsLastDay(p) && f[2] != LAST_DAY_CRON_DAYS then Meaning(p).(dom := Only(31)) else Meaning(p))
  {
    hide PlainField, CronInt, ParseClockTime, Range;
    PlainNumber(f[0], 0, 59);
    PlainNumber(f[1], 0, 23);
    StarField(1, 12);
  }

  lemma ClockedPresetIsValid(p: Schedule, hour: nat, minute: nat)
    requires hour <= 23 && minute <= 59 && p.time == ClockText(hour, minute)
    requires p.kind in {"daily", "weekly", "monthly"} && p.cronExpr == "" && Increasing(p.weekdays)
    requires p.kind == "weekly" ==> p.weekdays != [] && forall d :: d in p.weekdays ==> 0 <= d <= 6
    requires p.kind == "monthly" ==> 1 <= p.dayOfMonth <= 31
    ensures Normalized(p) == p && ValidPreset(p) && ParseClockTime(p.time) == Some((hour, minute))
  {
    ClockTextParses(hour, minute);
    NormalPreset(p);
    hide Normalized, ParseClockTime, ClockText;
  }

  /** A recognised legacy expression and its preset agree in everything but the day of the month of a last-day preset. */
  lemma PresetKeepsFields(spec: string)
    requires SchedulePreset(spec).Some?
    ensures KeepsFields(Fields(spec), SchedulePreset(spec).value)
  {
    if Fields(spec)[1] == "*" {
      HourlyKeepsFields(Fields(spec));
    } else {
      ClockedKeepsFields(Fields(spec));
    }
  }
}
