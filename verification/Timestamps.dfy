/** Timestamps as fixed-width RFC 3339 text: their order, their reading and their normal form. */
module Timestamps {
  import opened Base
  import opened Text
  import opened Calendar
  import Retention

  const SECOND: int := 1_000_000_000

  /** The zero time, 0001-01-01T00:00:00Z, which stands for "no timestamp". */
  const ZERO: int := 366 * DAY

  const WIDTHS: seq<nat> := [2, 2, 2, 2, 2, 9]
  const SEPARATORS: seq<char> := ['-', 'T', ':', ':', '.', 'Z']

  // --------------------------------------------------------------- formatting

  /** Zero-padded numbers, each followed by its separator. */
  function Render(fields: seq<nat>, widths: seq<nat>, seps: seq<char>): string
    requires |fields| == |widths| == |seps|
  {
    if fields == [] then "" else Pad(fields[0], widths[0]) + [seps[0]] + Render(fields[1..], widths[1..], seps[1..])
  }

  /** A year of at least four digits. */
  function YearText(y: int): string {
    if y < 0 then "-" + (if y > -10000 then Pad(-y, 4) else Itoa(-y))
    else if y <= 9999 then Pad(y, 4)
    else Itoa(y)
  }

  /** Month, day, hour, minute, second and nanosecond. */
  function Parts(t: int): (f: seq<nat>)
    ensures |f| == 6
  {
    hide DateOf, ValidDate;
    DatesArePositive(t / DAY);
    ClockIsPositive(t % DAY);
    var d := DateOf(t / DAY);
    var r := t % DAY;
    [d.month, d.day, r / (3600 * SECOND), r / (60 * SECOND) % 60, r / SECOND % 60, r % SECOND]
  }

  lemma DatesArePositive(day: int)
    ensures DateOf(day).month >= 1 && DateOf(day).day >= 1
  {
  }

  lemma ClockIsPositive(r: int)
    requires r >= 0
    ensures r / (3600 * SECOND) >= 0 && r / (60 * SECOND) % 60 >= 0 && r / SECOND % 60 >= 0 && r % SECOND >= 0
  {
  }

  function Year(t: int): int {
    DateOf(t / DAY).year
  }

  function FmtTime(t: int): string {
    YearText(Year(t)) + "-" + Render(Parts(t), WIDTHS, SEPARATORS)
  }

  // ------------------------------------------------------------------- parsing

  /** A number of `w` digits and its separator, and what follows. */
  function TakeField(s: string, w: nat, sep: char): Option<(nat, string)> {
    if |s| > w && AllDigits(s[..w]) && s[w] == sep then Some((Number(s[..w]), s[w + 1..])) else None
  }

  /** One or two digits. */
  function TakeHour(s: string): Option<(nat, string)> {
    var two := TakeField(s, 2, ':');
    if two.Some? then two else TakeField(s, 1, ':')
  }

  /** The length of the leading run of digits. */
  function DigitRun(s: string): (n: nat)
    ensures n <= |s| && (forall i :: 0 <= i < n ==> IsDigit(s[i])) && (n < |s| ==> !IsDigit(s[n]))
  {
    if s == "" || !IsDigit(s[0]) then 0 else 1 + DigitRun(s[1..])
  }

  /** An optional fraction of a second in nanoseconds, digits past the ninth dropped. */
  function TakeFraction(s: string): (nat, string) {
    if |s| >= 2 && s[0] in {'.', ','} && IsDigit(s[1]) then
      var n := DigitRun(s[1..]);
      var digits := s[1..1 + Min(n, 9)];
      (Number(digits) * Pow10(9 - |digits|), s[1 + n..])
    else (0, s)
  }

  /** The offset from UTC in seconds. */
  function TakeZone(s: string): Option<int> {
    if s == "Z" then Some(0)
    else if |s| == 6 && s[0] in {'+', '-'} && AllDigits(s[1..3]) && s[3] == ':' && AllDigits(s[4..6])
            && Number(s[1..3]) <= 24 && Number(s[4..6]) <= 60 then
      var offset := (Number(s[1..3]) * 60 + Number(s[4..6])) * 60;
      Some(if s[0] == '-' then -offset else offset)
    else None
  }

  function Rfc3339(s: string): Option<int> {
    var y := TakeField(s, 4, '-');
    if y.None? then None else
      var mo := TakeField(y.value.1, 2, '-');
      if mo.None? then None else
        var d := TakeField(mo.value.1, 2, 'T');
        if d.None? then None else
          var date := Date(y.value.0, mo.value.0, d.value.0);
          var clock := ClockOf(d.value.1);
          if clock.None? || !ValidDate(date) then None
          else Some(DayNumber(date.year, date.month, date.day) * DAY + clock.value)
  }

  /** The time of day and zone, in nanoseconds from midnight UTC. */
  function ClockOf(s: string): Option<int> {
    var h := TakeHour(s);
    if h.None? then None else
      var mi := TakeField(h.value.1, 2, ':');
      if mi.None? then None else
        var r := mi.value.1;
        if |r| < 2 || !AllDigits(r[..2]) then None else
          var (ns, rest) := TakeFraction(r[2..]);
          var zone := TakeZone(rest);
          if zone.None? || h.value.0 >= 24 || mi.value.0 >= 60 || Number(r[..2]) >= 60 then None
          else Some((h.value.0 * 3600 + mi.value.0 * 60 + Number(r[..2]) - zone.value) * SECOND + ns)
  }

  function ParseTime(s: string): int {
    var t := Rfc3339(s);
    if t.Some? then t.value else ZERO
  }

  // --------------------------------------------------------------- text order

  predicate FieldsBefore(a: seq<nat>, b: seq<nat>)
    requires |a| == |b|
  {
    a != [] && (a[0] < b[0] || (a[0] == b[0] && FieldsBefore(a[1..], b[1..])))
  }

  ghost predicate Fit(fields: seq<nat>, widths: seq<nat>) {
    |fields| == |widths| && forall i :: 0 <= i < |fields| ==> fields[i] < Pow10(widths[i])
  }

  /** Text with a first part of one length compares by that part, then by the rest. */
  lemma HeadOrder(x: string, y: string, sep: char, ra: string, rb: string)
    requires |x| == |y|
    ensures Less(x + [sep] + ra, y + [sep] + rb) <==> Less(x, y) || (x == y && Less(ra, rb))
    ensures x + [sep] + ra == y + [sep] + rb <==> x == y && ra == rb
  {
    var a, b := x + [sep] + ra, y + [sep] + rb;
    LessConcat(x, y, [sep] + ra, [sep] + rb);
    assert a == x + ([sep] + ra) && b == y + ([sep] + rb);
    LessConcat([sep], [sep], ra, rb);
    LessTotal([sep], [sep]);
    assert a[..|x|] == x && b[..|x|] == y && a[|x| + 1..] == ra && b[|x| + 1..] == rb;
  }

  /** Fixed-width text sorts field by field. */
  lemma {:induction false} RenderOrder(a: seq<nat>, b: seq<nat>, widths: seq<nat>, seps: seq<char>)
    requires Fit(a, widths) && Fit(b, widths) && |seps| == |widths|
    ensures Less(Render(a, widths, seps), Render(b, widths, seps)) <==> FieldsBefore(a, b)
    ensures Render(a, widths, seps) == Render(b, widths, seps) <==> a == b
    decreases |a|
  {
    if a == [] {
      assert a == b;
    } else {
      RenderOrder(a[1..], b[1..], widths[1..], seps[1..]);
      PadOrder(a[0], b[0], widths[0]);
      HeadOrder(Pad(a[0], widths[0]), Pad(b[0], widths[0]), seps[0],
                Render(a[1..], widths[1..], seps[1..]), Render(b[1..], widths[1..], seps[1..]));
      hide Pad, Less, Pow10;
      assert a == [a[0]] + a[1..] && b == [b[0]] + b[1..];
    }
  }

  // --------------------------------------------------------- fields of instants

  predicate Representable(t: int) {
    0 <= Year(t) <= 9999
  }

  lemma PartsFit(t: int)
    ensures Fit(Parts(t), WIDTHS)
  {
    hide DateOf, Pow10, MonthLength, ValidDate;
    TwoAndNine();
    DateFits(t / DAY);
    ClockFits(t % DAY);
    var f := Parts(t);
    assert f[0] < 100 && f[1] < 100 && f[2] < 100 && f[3] < 100 && f[4] < 100 && f[5] < SECOND;
  }

  lemma TwoAndNine()
    ensures Pow10(2) == 100 && Pow10(9) == SECOND
  {
    assert Pow10(5) == 100_000;
  }

  lemma DateFits(day: int)
    ensures DateOf(day).month <= 12 && DateOf(day).day <= 31
  {
    MonthLengths(DateOf(day).year, DateOf(day).month);
  }

  lemma ClockFits(r: int)
    requires 0 <= r < DAY
    ensures r / (3600 * SECOND) < 24 && r / (60 * SECOND) % 60 < 60 && r / SECOND % 60 < 60 && r % SECOND < SECOND
  {
  }

  /** The clock fields of a day spell out the nanoseconds since midnight. */
  lemma ClockParts(r: int)
    requires 0 <= r < DAY
    ensures r == (r / (3600 * SECOND) * 3600 + r / (60 * SECOND) % 60 * 60 + r / SECOND % 60) * SECOND + r % SECOND
    ensures r / (3600 * SECOND) < 24
  {
    var s := r / SECOND;
    assert r / (60 * SECOND) == s / 60 && r / (3600 * SECOND) == s / 3600;
    assert s / 3600 == s / 60 / 60;
  }

  lemma UnfoldBefore(a: seq<nat>, b: seq<nat>)
    requires |a| == 6 && |b| == 6
    ensures FieldsBefore(a, b) <==>
              || a[0] < b[0] || (a[0] == b[0] && (a[1] < b[1] || (a[1] == b[1] && (a[2] < b[2] || (a[2] == b[2]
              && (a[3] < b[3] || (a[3] == b[3] && (a[4] < b[4] || (a[4] == b[4] && a[5] < b[5])))))))))
  {
    BeforeFrom(a, b, 0);
    BeforeFrom(a, b, 1);
    BeforeFrom(a, b, 2);
    BeforeFrom(a, b, 3);
    BeforeFrom(a, b, 4);
    BeforeFrom(a, b, 5);
    assert a[0..] == a && b[0..] == b;
  }

  lemma BeforeFrom(a: seq<nat>, b: seq<nat>, i: nat)
    requires i < |a| == |b|
    ensures FieldsBefore(a[i..], b[i..]) <==> a[i] < b[i] || (a[i] == b[i] && i + 1 < |a| && FieldsBefore(a[i + 1..], b[i + 1..]))
  {
    assert a[i..][1..] == a[i + 1..] && b[i..][1..] == b[i + 1..];
  }

  /** Within a day, the clock fields sort as the time does. */
  lemma ClockOrder(a: int, b: int)
    requires 0 <= a < DAY && 0 <= b < DAY
    ensures var h, k := a / (3600 * SECOND), b / (3600 * SECOND);
            var m, n := a / (60 * SECOND) % 60, b / (60 * SECOND) % 60;
            var s, u := a / SECOND % 60, b / SECOND % 60;
            a < b <==> h < k || (h == k && (m < n || (m == n && (s < u || (s == u && a % SECOND < b % SECOND)))))
  {
    ClockParts(a);
    ClockParts(b);
    ClockFields(a / (3600 * SECOND), a / (60 * SECOND) % 60, a / SECOND % 60, a % SECOND,
                b / (3600 * SECOND), b / (60 * SECOND) % 60, b / SECOND % 60, b % SECOND);
  }

  lemma ClockFields(h: int, m: int, s: int, x: int, k: int, n: int, u: int, y: int)
    requires 0 <= m < 60 && 0 <= n < 60 && 0 <= s < 60 && 0 <= u < 60 && 0 <= x < SECOND && 0 <= y < SECOND
    ensures ((h * 3600 + m * 60 + s) * SECOND + x < (k * 3600 + n * 60 + u) * SECOND + y) <==>
              (h < k || (h == k && (m < n || (m == n && (s < u || (s == u && x < y))))))
  {
  }

  lemma DayThenClock(a: int, b: int)
    ensures a < b <==> a / DAY < b / DAY || (a / DAY == b / DAY && a % DAY < b % DAY)
  {
  }

  /** Year and fields together sort as time does. */
  lemma PartsOrder(a: int, b: int)
    ensures a < b <==> Year(a) < Year(b) || (Year(a) == Year(b) && FieldsBefore(Parts(a), Parts(b)))
    ensures a == b <==> Year(a) == Year(b) && Parts(a) == Parts(b)
  {
    DayThenClock(a, b);
    DateOrder(a / DAY, b / DAY);
    ClockOrder(a % DAY, b % DAY);
    UnfoldBefore(Parts(a), Parts(b));
    hide DateOf, FieldsBefore;
    if Year(a) == Year(b) && Parts(a) == Parts(b) {
      PartsDetermine(a, b);
    }
  }

  lemma PartsDetermine(a: int, b: int)
    requires Year(a) == Year(b) && Parts(a) == Parts(b)
    ensures a == b
  {
    var f, g := Parts(a), Parts(b);
    assert f[0] == g[0] && f[1] == g[1] && f[2] == g[2] && f[3] == g[3] && f[4] == g[4] && f[5] == g[5];
    assert DateOf(a / DAY) == DateOf(b / DAY);
    DateOrder(a / DAY, b / DAY);
    hide DateOf;
    ClockParts(a % DAY);
    ClockParts(b % DAY);
  }

  /** For years 0 to 9999 the order of timestamps as text is the order of time. */
  lemma TextOrderIsTimeOrder(a: int, b: int)
    requires Representable(a) && Representable(b)
    ensures Less(FmtTime(a), FmtTime(b)) <==> a < b
    ensures FmtTime(a) == FmtTime(b) <==> a == b
  {
    PartsFit(a);
    PartsFit(b);
    PartsOrder(a, b);
    RenderOrder(Parts(a), Parts(b), WIDTHS, SEPARATORS);
    assert Pow10(4) == 10000;
    PadOrder(Year(a), Year(b), 4);
    hide Parts, Render, Less, Pad, Year;
    HeadOrder(YearText(Year(a)), YearText(Year(b)), '-', Render(Parts(a), WIDTHS, SEPARATORS), Render(Parts(b), WIDTHS, SEPARATORS));
  }

  lemma FirstOfYear(y: int)
    ensures Year(YearStart(y) * DAY) == y
  {
    YearStartStep(y);
    YearUnique(YearStart(y), y);
    assert YearStart(y) * DAY / DAY == YearStart(y);
  }

  lemma {:induction false} ItoaFirst(n: nat)
    requires n >= 1
    ensures Itoa(10 * n)[0] == Itoa(n)[0]
  {
  }

  /** Past year 9999 it is not: the first instant of year 10000 sorts before the first of 9999. */
  lemma YearTenThousandSortsFirst()
    ensures var a, b := YearStart(9999) * DAY, YearStart(10000) * DAY; a < b && Less(FmtTime(b), FmtTime(a))
  {
    var a, b := YearStart(9999) * DAY, YearStart(10000) * DAY;
    YearStartMonotone(9999, 10000);
    FirstOfYear(9999);
    FirstOfYear(10000);
    FirstDigits();
    FmtStarts(a);
    FmtStarts(b);
    hide Year, YearStart, FmtTime, YearText;
    SmallerFirst(FmtTime(b), FmtTime(a));
  }

  lemma FmtStarts(t: int)
    ensures |YearText(Year(t))| > 0 && |FmtTime(t)| > 0 && FmtTime(t)[..1] == YearText(Year(t))[..1]
  {
    hide Year, Parts, Render;
  }

  lemma SmallerFirst(a: string, b: string)
    requires |a| > 0 && |b| > 0 && a[..1] == "1" && b[..1] == "9"
    ensures Less(a, b)
  {
    assert a[0] == a[..1][0] && b[0] == b[..1][0];
  }

  lemma FirstDigits()
    ensures |YearText(9999)| > 0 && |YearText(10000)| > 0 && YearText(9999)[..1] == "9" && YearText(10000)[..1] == "1"
  {
    ItoaFirst(1000);
    ItoaFirst(100);
    ItoaFirst(10);
    ItoaFirst(1);
    assert Pad(9999, 4)[0] == Pad(999, 3)[0] == Pad(99, 2)[0] == Pad(9, 1)[0] == '9';
  }

  // ---------------------------------------------------------------- round trip

  lemma TakePad(n: nat, w: nat, sep: char, rest: string)
    requires w > 0 && n < Pow10(w)
    ensures TakeField(Pad(n, w) + [sep] + rest, w, sep) == Some((n, rest))
  {
    var s := Pad(n, w) + [sep] + rest;
    NumberPad(n, w);
    assert s[..w] == Pad(n, w) && s[w] == sep && s[w + 1..] == rest;
  }

  /** The fields of a rendered list, one at a time. */
  lemma RenderFrom(f: seq<nat>, i: nat)
    requires |f| == 6 && i < 6
    ensures Render(f[i..], WIDTHS[i..], SEPARATORS[i..])
              == Pad(f[i], WIDTHS[i]) + [SEPARATORS[i]] + Render(f[i + 1..], WIDTHS[i + 1..], SEPARATORS[i + 1..])
  {
    assert f[i..][1..] == f[i + 1..] && WIDTHS[i..][1..] == WIDTHS[i + 1..] && SEPARATORS[i..][1..] == SEPARATORS[i + 1..];
  }

  lemma FractionOfNine(ns: nat)
    requires ns < Pow10(9)
    ensures TakeFraction("." + Pad(ns, 9) + "Z") == (ns, "Z")
  {
    var s := "." + Pad(ns, 9) + "Z";
    NumberPad(ns, 9);
    assert s[1..] == Pad(ns, 9) + "Z";
    assert s[1..][9] == 'Z' && forall i :: 0 <= i < 9 ==> s[1..][i] == Pad(ns, 9)[i];
    assert DigitRun(s[1..]) == 9;
    assert s[1..10] == Pad(ns, 9) && s[10..] == "Z";
    assert Pow10(0) == 1;
  }

  /** A timestamp's text from its i-th field on. */
  function Tail(f: seq<nat>, i: nat): string
    requires |f| == 6 && i <= 6
  {
    Render(f[i..], WIDTHS[i..], SEPARATORS[i..])
  }

  lemma TakeTail(f: seq<nat>, i: nat)
    requires Fit(f, WIDTHS) && i < 6
    ensures TakeField(Tail(f, i), WIDTHS[i], SEPARATORS[i]) == Some((f[i], Tail(f, i + 1)))
  {
    RenderFrom(f, i);
    TakePad(f[i], WIDTHS[i], SEPARATORS[i], Tail(f, i + 1));
  }

  lemma TailStep(f: seq<nat>, i: nat)
    requires |f| == 6 && i < 6
    ensures Tail(f, i) == Pad(f[i], WIDTHS[i]) + [SEPARATORS[i]] + Tail(f, i + 1)
  {
    RenderFrom(f, i);
  }

  lemma TailEnds(f: seq<nat>)
    requires |f| == 6
    ensures Tail(f, 6) == ""
  {
  }

  /** The text from the seconds on. */
  lemma SecondsText(f: seq<nat>)
    requires |f| == 6
    ensures Tail(f, 4) == Pad(f[4], 2) + ("." + Pad(f[5], 9) + "Z")
  {
    hide Pad, Tail;
    TailStep(f, 4);
    TailStep(f, 5);
    TailEnds(f);
    assert Tail(f, 5) == Pad(f[5], 9) + "Z";
  }

  lemma SecondsTail(f: seq<nat>)
    requires |f| == 6 && f[4] < Pow10(2) && f[5] < Pow10(9)
    ensures var r := Tail(f, 4);
            |r| >= 2 && AllDigits(r[..2]) && Number(r[..2]) == f[4] && TakeFraction(r[2..]) == (f[5], "Z")
  {
    SecondsText(f);
    NumberPad(f[4], 2);
    FractionOfNine(f[5]);
    hide Pad, TakeFraction, Number, Pow10, Tail;
    var tail := "." + Pad(f[5], 9) + "Z";
    var r := Pad(f[4], 2) + tail;
    assert r[..2] == Pad(f[4], 2) && r[2..] == tail;
  }

  lemma FitAt(f: seq<nat>, i: nat)
    requires Fit(f, WIDTHS) && i < 6
    ensures |f| == 6 && f[i] < Pow10(WIDTHS[i])
  {
  }

  lemma ClockReads(f: seq<nat>)
    requires Fit(f, WIDTHS) && f[2] < 24 && f[3] < 60 && f[4] < 60
    ensures ClockOf(Tail(f, 2)) == Some((f[2] * 3600 + f[3] * 60 + f[4]) * SECOND + f[5])
  {
    hide Tail, TakeField, TakeFraction, Number, Fit;
    TakeTail(f, 2);
    TakeTail(f, 3);
    FitAt(f, 4);
    FitAt(f, 5);
    SecondsTail(f);
  }

  lemma DateReads(s: string, a: string, b: string, c: string, d: Date, clock: int)
    requires ValidDate(d) && d.year >= 0
    requires TakeField(s, 4, '-') == Some((d.year as nat, a)) && TakeField(a, 2, '-') == Some((d.month as nat, b))
    requires TakeField(b, 2, 'T') == Some((d.day as nat, c)) && ClockOf(c) == Some(clock)
    ensures Rfc3339(s) == Some(DayNumber(d.year, d.month, d.day) * DAY + clock)
  {
    hide TakeField, ClockOf, DayNumber, MonthLength;
  }

  lemma FmtTimeIs(t: int)
    requires Representable(t)
    ensures FmtTime(t) == Pad(Year(t), 4) + "-" + Tail(Parts(t), 0)
  {
    var f := Parts(t);
    assert f[0..] == f && WIDTHS[0..] == WIDTHS && SEPARATORS[0..] == SEPARATORS;
  }

  lemma YearReads(t: int)
    requires Representable(t)
    ensures TakeField(FmtTime(t), 4, '-') == Some((Year(t) as nat, Tail(Parts(t), 0)))
  {
    FmtTimeIs(t);
    assert Pow10(4) == 10000;
    hide Tail, Parts, Year, FmtTime, TakeField;
    TakePad(Year(t), 4, '-', Tail(Parts(t), 0));
  }

  lemma FieldsRead(s: string, d: Date, f: seq<nat>)
    requires ValidDate(d) && d.year >= 0 && |f| == 6 && Fit(f, WIDTHS)
    requires f[0] == d.month && f[1] == d.day && f[2] < 24 && f[3] < 60 && f[4] < 60
    requires TakeField(s, 4, '-') == Some((d.year as nat, Tail(f, 0)))
    ensures Rfc3339(s) == Some(DayNumber(d.year, d.month, d.day) * DAY + ((f[2] * 3600 + f[3] * 60 + f[4]) * SECOND + f[5]))
  {
    hide TakeField, ClockOf, Tail, DayNumber, Fit, Rfc3339, ValidDate;
    TakeTail(f, 0);
    TakeTail(f, 1);
    ClockReads(f);
    DateReads(s, Tail(f, 0), Tail(f, 1), Tail(f, 2), d, (f[2] * 3600 + f[3] * 60 + f[4]) * SECOND + f[5]);
  }

  /** Reading the text of a timestamp gives the timestamp back, for years 0 to 9999. */
  lemma ParseInvertsFmt(t: int)
    requires Representable(t)
    ensures Rfc3339(FmtTime(t)) == Some(t) && ParseTime(FmtTime(t)) == t
  {
    hide TakeField, Parts, Tail, DayNumber, Fit, FmtTime, Rfc3339, ValidDate, DateOf;
    PartsAre(t);
    DayNumberOfDate(t / DAY);
    YearReads(t);
    PartsFit(t);
    FieldsRead(FmtTime(t), DateOf(t / DAY), Parts(t));
  }

  lemma PartsAre(t: int)
    ensures var d, f := DateOf(t / DAY), Parts(t);
            && f[0] == d.month && f[1] == d.day && f[2] < 24 && f[3] < 60 && f[4] < 60
            && t == t / DAY * DAY + ((f[2] * 3600 + f[3] * 60 + f[4]) * SECOND + f[5])
  {
    hide DateOf;
    ClockParts(t % DAY);
  }

  // ---------------------------------------------------------- normal form

  /** Text past the years that fit is no timestamp any more. */
  lemma UnrepresentableIsNotRead(t: int)
    requires !Representable(t)
    ensures ParseTime(FmtTime(t)) == ZERO
  {
    var s := FmtTime(t);
    var y := YearText(Year(t));
    assert s[..|y|] == y;
    if Year(t) < 0 {
      assert s[0] == '-' && (|s| > 4 ==> s[..4][0] == '-');
    } else {
      ItoaLength(Year(t));
      assert s[4] == y[4] && IsDigit(y[4]);
    }
    assert TakeField(s, 4, '-').None?;
  }

  lemma ItoaLength(n: nat)
    requires n >= 10000
    ensures |Itoa(n)| >= 5
  {
    assert |Itoa(n / 1000)| >= 2;
    assert |Itoa(n / 100)| >= 3 && |Itoa(n / 10)| >= 4 by {
      assert n / 100 / 10 == n / 1000 && n / 10 / 10 == n / 100;
    }
  }

  /** What normalising makes of a column's text. */
  function Normal(raw: string): string {
    if raw == "" || ParseTime(raw) == ZERO then raw else FmtTime(ParseTime(raw))
  }

  /** Normalising twice changes nothing more. */
  lemma NormalTwice(raw: string)
    ensures Normal(Normal(raw)) == Normal(raw)
  {
    var t := ParseTime(raw);
    if Representable(t) {
      ParseInvertsFmt(t);
    } else {
      UnrepresentableIsNotRead(t);
    }
  }

  /** Whatever precision they were written with, normalised timestamps sort as the times they stand for. */
  lemma NormalisedSorts(a: string, b: string)
    requires Representable(ParseTime(a)) && Representable(ParseTime(b)) && ParseTime(a) != ZERO && ParseTime(b) != ZERO
    ensures ParseTime(Normal(a)) == ParseTime(a)
    ensures Less(Normal(a), Normal(b)) <==> ParseTime(a) < ParseTime(b)
  {
    NothingIsNoTime();
    ParseInvertsFmt(ParseTime(a));
    TextOrderIsTimeOrder(ParseTime(a), ParseTime(b));
  }

  lemma NothingIsNoTime()
    ensures ParseTime("") == ZERO
  {
  }

  /** The order the database sorts restore points in is the one retention uses. */
  lemma DatabaseOrderIsRetentionOrder(p: Retention.Point, q: Retention.Point)
    requires Representable(p.at) && Representable(q.at)
    ensures Retention.Newer(p, q) <==>
              Less(FmtTime(q.at), FmtTime(p.at)) || (FmtTime(q.at) == FmtTime(p.at) && Less(q.id, p.id))
  {
    TextOrderIsTimeOrder(q.at, p.at);
  }

  // ------------------------------------------------------------- period keys

  /** The text of a retention period's key. */
  function KeyText(k: Retention.Key): string
    requires KeyFits(k)
  {
    match k
    case NoKey => ""
    case DayKey(d) => Pad(d.year, 4) + "-" + (Pad(d.month, 2) + "-" + Pad(d.day, 2))
    case WeekKey(w) => Pad(w.year, 4) + "-" + ("W" + Pad(w.week, 2))
    case MonthKey(y, m) => Pad(y, 4) + "-" + Pad(m, 2)
    case YearKey(y) => Pad(y, 4)
  }

  predicate KeyFits(k: Retention.Key) {
    match k
    case NoKey => true
    case DayKey(d) => 0 <= d.year <= 9999 && 0 <= d.month <= 99 && 0 <= d.day <= 99
    case WeekKey(w) => 0 <= w.year <= 9999 && 0 <= w.week <= 99
    case MonthKey(y, m) => 0 <= y <= 9999 && 0 <= m <= 99
    case YearKey(y) => 0 <= y <= 9999
  }

  lemma BucketKeyFits(at: int, r: Retention.Reason)
    requires Representable(at) && 0 <= IsoWeekOf(at / DAY).year <= 9999
    ensures KeyFits(Retention.BucketKey(at, r))
  {
    var d := DateOf(at / DAY);
    MonthLengths(d.year, d.month);
    var th := Thursday(at / DAY);
    YearStartStep(YearOf(th));
    hide DateOf, MonthLength;
    assert 0 <= (th - YearStart(YearOf(th))) / 7 + 1 <= 99;
  }

  /** Two instants have the same key text for a kind of period exactly when they fall in the same period. */
  lemma KeyTextNamesThePeriod(a: int, b: int, r: Retention.Reason)
    requires Representable(a) && 0 <= IsoWeekOf(a / DAY).year <= 9999
    requires Representable(b) && 0 <= IsoWeekOf(b / DAY).year <= 9999
    ensures KeyFits(Retention.BucketKey(a, r)) && KeyFits(Retention.BucketKey(b, r))
    ensures KeyText(Retention.BucketKey(a, r)) == KeyText(Retention.BucketKey(b, r)) <==>
              Retention.PeriodIndex(a, r) == Retention.PeriodIndex(b, r)
  {
    BucketKeyFits(a, r);
    BucketKeyFits(b, r);
    Retention.PeriodsAreMonotone(a, b, r);
    SameKind(a, b, r);
    KeyTextIdentifies(Retention.BucketKey(a, r), Retention.BucketKey(b, r));
  }

  ghost predicate SameForm(k: Retention.Key, l: Retention.Key) {
    k.NoKey? == l.NoKey? && k.DayKey? == l.DayKey? && k.WeekKey? == l.WeekKey? && k.MonthKey? == l.MonthKey?
  }

  lemma SameKind(a: int, b: int, r: Retention.Reason)
    ensures SameForm(Retention.BucketKey(a, r), Retention.BucketKey(b, r))
  {
  }

  lemma KeyTextIdentifies(k: Retention.Key, l: Retention.Key)
    requires KeyFits(k) && KeyFits(l) && SameForm(k, l)
    ensures KeyText(k) == KeyText(l) <==> k == l
  {
    assert Pow10(4) == 10000 && Pow10(2) == 100;
    hide Pad, Pow10, Less;
    match k
    case NoKey =>
    case DayKey(d) =>
      TwoPartText(d.year, Pad(d.month, 2) + "-" + Pad(d.day, 2), l.d.year, Pad(l.d.month, 2) + "-" + Pad(l.d.day, 2));
      HeadOrder(Pad(d.month, 2), Pad(l.d.month, 2), '-', Pad(d.day, 2), Pad(l.d.day, 2));
      PadOrder(d.month, l.d.month, 2);
      PadOrder(d.day, l.d.day, 2);
    case WeekKey(w) =>
      TwoPartText(w.year, "W" + Pad(w.week, 2), l.w.year, "W" + Pad(l.w.week, 2));
      HeadOrder("", "", 'W', Pad(w.week, 2), Pad(l.w.week, 2));
      assert "" + ['W'] + Pad(w.week, 2) == "W" + Pad(w.week, 2) && "" + ['W'] + Pad(l.w.week, 2) == "W" + Pad(l.w.week, 2);
      PadOrder(w.week, l.w.week, 2);
    case MonthKey(y, m) =>
      TwoPartText(y, Pad(m, 2), l.y, Pad(l.m, 2));
      PadOrder(m, l.m, 2);
    case YearKey(y) => PadOrder(y, l.y, 4);
  }

  lemma TwoPartText(y: nat, x: string, z: nat, w: string)
    requires y < Pow10(4) && z < Pow10(4)
    ensures Pad(y, 4) + "-" + x == Pad(z, 4) + "-" + w <==> y == z && x == w
  {
    HeadOrder(Pad(y, 4), Pad(z, 4), '-', x, w);
    PadOrder(y, z, 4);
  }

  /** One text column of a table: rows by id, some of them null. */
  class Column {
    var rows: map<nat, Option<string>>

    constructor (initial: map<nat, Option<string>>)
      ensures rows == initial
    {
      rows := initial;
    }

    /** Collects the rows whose text is not canonical, then rewrites them. */
    method NormalizeTimestamps()
      modifies this
      ensures rows.Keys == old(rows).Keys
      ensures forall id :: id in rows ==>
                rows[id] == if old(rows)[id].None? then None else Some(Normal(old(rows)[id].value))
    {
      hide FmtTime, ParseTime;
      var fixes: map<nat, string> := map[];
      var todo := rows.Keys;
      while todo != {}
        invariant todo <= rows.Keys && rows == old(rows)
        invariant fixes.Keys <= rows.Keys - todo
        invariant forall id :: id in rows.Keys - todo && rows[id].Some? ==>
                    Normal(rows[id].value) == if id in fixes then fixes[id] else rows[id].value
        invariant forall id :: id in fixes ==> rows[id].Some?
        decreases todo
      {
        var id :| id in todo;
        todo := todo - {id};
        var raw := rows[id];
        if raw.Some? && raw.value != "" {
          var t := ParseTime(raw.value);
          if t != ZERO && FmtTime(t) != raw.value {
            fixes := fixes[id := FmtTime(t)];
          }
        }
      }
      var left := fixes.Keys;
      while left != {}
        invariant left <= fixes.Keys && rows.Keys == old(rows).Keys
        invariant forall id :: id in rows ==> rows[id] == if id in fixes.Keys - left then Some(fixes[id]) else old(rows)[id]
        decreases left
      {
        var id :| id in left;
        left := left - {id};
        rows := rows[id := Some(fixes[id])];
      }
    }
  }
}
