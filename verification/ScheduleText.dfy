/** Job schedules: their cron text, and recognising the presets in cron text again. */
module ScheduleText {
  import opened Base
  import opened Text

  const LAST_DAY_OF_MONTH := 31
  const LAST_DAY_CRON_DAYS := "28-31"

  datatype Schedule = Schedule(kind: string, minute: int, time: string, weekdays: seq<int>, dayOfMonth: int, cronExpr: string)

  const BLANK := Schedule("", 0, "", [], 0, "")
  const MANUAL := BLANK.(kind := "manual")

  // -------------------------------------------------------------- white space

  predicate IsSpace(c: char) {
    || c in {'\t', '\n', '\U{B}', '\U{C}', '\r', ' ', '\U{85}', '\U{A0}', '\U{1680}'}
    || '\U{2000}' <= c <= '\U{200A}'
    || c in {'\U{2028}', '\U{2029}', '\U{202F}', '\U{205F}', '\U{3000}'}
  }

  function TrimLeft(s: string): string {
    if s != "" && IsSpace(s[0]) then TrimLeft(s[1..]) else s
  }

  function TrimRight(s: string): string {
    if s != "" && IsSpace(s[|s| - 1]) then TrimRight(s[..|s| - 1]) else s
  }

  function Trim(s: string): string {
    TrimRight(TrimLeft(s))
  }

  /** No white space anywhere, and something there. */
  predicate IsWord(s: string) {
    s != "" && forall i :: 0 <= i < |s| ==> !IsSpace(s[i])
  }

  lemma TrimWord(s: string)
    requires s == "" || (!IsSpace(s[0]) && !IsSpace(s[|s| - 1]))
    ensures Trim(s) == s
  {
  }

  lemma {:induction false} TrimLeftStart(s: string)
    ensures TrimLeft(s) == "" || !IsSpace(TrimLeft(s)[0])
  {
    if s != "" && IsSpace(s[0]) {
      TrimLeftStart(s[1..]);
    }
  }

  lemma {:induction false} TrimRightEnds(s: string)
    requires s == "" || !IsSpace(s[0])
    ensures var r := TrimRight(s); r == "" || (!IsSpace(r[0]) && !IsSpace(r[|r| - 1]))
    decreases |s|
  {
    if s != "" && IsSpace(s[|s| - 1]) {
      TrimRightEnds(s[..|s| - 1]);
    }
  }

  lemma TrimTwice(s: string)
    ensures Trim(Trim(s)) == Trim(s)
  {
    TrimLeftStart(s);
    TrimRightEnds(TrimLeft(s));
    TrimWord(Trim(s));
  }

  predicate Blank(s: string) {
    forall i :: 0 <= i < |s| ==> IsSpace(s[i])
  }

  lemma {:induction false} TrimLeftShape(s: string) returns (a: string)
    ensures s == a + TrimLeft(s) && Blank(a)
  {
    a := "";
    if s != "" && IsSpace(s[0]) {
      a := TrimLeftShape(s[1..]);
      a := [s[0]] + a;
    }
  }

  lemma {:induction false} TrimRightShape(s: string) returns (b: string)
    ensures s == TrimRight(s) + b && Blank(b)
    decreases |s|
  {
    b := "";
    if s != "" && IsSpace(s[|s| - 1]) {
      b := TrimRightShape(s[..|s| - 1]);
      b := b + [s[|s| - 1]];
    }
  }

  /** Trimming takes off white space at both ends, all of it, and nothing else. */
  lemma TrimShape(s: string) returns (a: string, b: string)
    ensures s == a + Trim(s) + b && Blank(a) && Blank(b)
    ensures Trim(s) == "" || (!IsSpace(Trim(s)[0]) && !IsSpace(Trim(s)[|Trim(s)| - 1]))
  {
    hide TrimLeft, TrimRight;
    a := TrimLeftShape(s);
    b := TrimRightShape(TrimLeft(s));
    TrimLeftStart(s);
    TrimRightEnds(TrimLeft(s));
  }

  /** The length of the leading run of non-space characters. */
  function WordLength(s: string): (n: nat)
    ensures n <= |s| && (forall i :: 0 <= i < n ==> !IsSpace(s[i])) && (n < |s| ==> IsSpace(s[n]))
  {
    if s == "" || IsSpace(s[0]) then 0 else 1 + WordLength(s[1..])
  }

  /** The words of a string. */
  function Fields(s: string): (words: seq<string>)
    ensures forall i :: 0 <= i < |words| ==> IsWord(words[i])
    decreases |s|
  {
    if s == "" then []
    else if IsSpace(s[0]) then Fields(s[1..])
    else
      var n := WordLength(s);
      [s[..n]] + Fields(s[n..])
  }

  lemma FieldsFirst(w: string, rest: string)
    requires IsWord(w)
    ensures Fields(w + " " + rest) == [w] + Fields(rest)
    ensures Fields(w) == [w]
  {
    var s := w + " " + rest;
    assert s[|w|] == ' ' && forall i :: 0 <= i < |w| ==> s[i] == w[i];
    assert WordLength(s) == |w| && s[..|w|] == w;
    assert s[|w|..][1..] == rest;
    assert WordLength(w) == |w| && w[..|w|] == w && w[|w|..] == "";
  }

  /** White space separates words wherever it stands. */
  lemma {:induction false} FieldsAppend(a: string, c: char, b: string)
    requires IsSpace(c)
    ensures Fields(a + [c] + b) == Fields(a) + Fields(b)
    decreases |a|
  {
    var s := a + [c] + b;
    hide IsSpace;
    if a == "" {
      assert s[0] == c && s[1..] == b;
    } else if IsSpace(a[0]) {
      assert s[0] == a[0] && s[1..] == a[1..] + [c] + b;
      FieldsAppend(a[1..], c, b);
    } else {
      var n := WordLength(a);
      assert forall i :: 0 <= i < |a| ==> s[i] == a[i];
      assert s[|a|] == c;
      assert WordLength(s) == n;
      assert s[..n] == a[..n] && s[n..] == a[n..] + [c] + b;
      FieldsAppend(a[n..], c, b);
    }
  }

  lemma {:induction false} FieldsJoin(words: seq<string>)
    requires words != [] && forall i :: 0 <= i < |words| ==> IsWord(words[i])
    ensures Fields(Join(words, ' ')) == words
    ensures Trim(Join(words, ' ')) == Join(words, ' ')
    ensures Join(words, ' ') != "" && !IsSpace(Join(words, ' ')[0]) && !IsSpace(Join(words, ' ')[|Join(words, ' ')| - 1])
    decreases |words|
  {
    if |words| == 1 {
      FieldsFirst(words[0], "");
    } else {
      FieldsJoin(words[1..]);
      FieldsFirst(words[0], Join(words[1..], ' '));
      assert words == [words[0]] + words[1..];
    }
    TrimWord(Join(words, ' '));
  }

  // --------------------------------------------------------------- weekdays

  predicate Increasing(s: seq<int>) {
    forall i, j :: 0 <= i < j < |s| ==> s[i] < s[j]
  }

  /** An increasing list with one more member. */
  function Insert(s: seq<int>, d: int): (r: seq<int>)
    requires Increasing(s)
    ensures Increasing(r) && forall x :: x in r <==> x in s || x == d
  {
    if s == [] then [d] else
      LeastFirst(s);
      if d < s[0] then
        ConsIncreasing(d, s);
        [d] + s
      else if d == s[0] then s
      else
        var rest := Insert(s[1..], d);
        ConsIncreasing(s[0], rest);
        [s[0]] + rest
  }

  lemma ConsIncreasing(h: int, s: seq<int>)
    requires Increasing(s) && forall x :: x in s ==> h < x
    ensures Increasing([h] + s)
  {
    assert forall i :: 0 <= i < |s| ==> s[i] in s;
  }

  /** The same days, each once, in order. */
  function NormalDays(days: seq<int>): (r: seq<int>)
    ensures Increasing(r) && forall x :: x in r <==> x in days
  {
    if days == [] then [] else
      var n := |days| - 1;
      assert days == days[..n] + [days[n]];
      Insert(NormalDays(days[..n]), days[n])
  }

  /** Only one increasing list has given members. */
  lemma {:induction false} IncreasingUnique(a: seq<int>, b: seq<int>)
    requires Increasing(a) && Increasing(b) && forall x :: x in a <==> x in b
    ensures a == b
    decreases |a|
  {
    assert (a != [] ==> a[0] in a) && (b != [] ==> b[0] in b);
    if a != [] {
      LeastFirst(a);
      LeastFirst(b);
      hide Increasing;
      assert a[0] == b[0];
      IncreasingUnique(a[1..], b[1..]);
      assert a == [a[0]] + a[1..] && b == [b[0]] + b[1..];
    }
  }

  /** An increasing list is its least member followed by the others. */
  lemma LeastFirst(a: seq<int>)
    requires Increasing(a) && a != []
    ensures Increasing(a[1..]) && (forall x :: x in a ==> a[0] <= x) && forall x :: x in a[1..] <==> x in a && x != a[0]
  {
    assert a == [a[0]] + a[1..];
  }

  /** De-duplicates, then sorts. */
  method NormalizeWeekdays(days: seq<int>) returns (sorted: seq<int>)
    ensures sorted == NormalDays(days)
  {
    if |days| == 0 {
      return [];
    }
    var out: seq<int> := [];
    var seen: set<int> := {};
    for i := 0 to |days|
      invariant seen == (set d | d in days[..i])
      invariant forall x :: x in out <==> x in days[..i]
    {
      if days[i] !in seen {
        seen := seen + {days[i]};
        out := out + [days[i]];
      }
      assert days[..i + 1] == days[..i] + [days[i]];
    }
    assert days[..|days|] == days;
    sorted := NormalDays(out);
    IncreasingUnique(NormalDays(out), NormalDays(days));
  }

  // ----------------------------------------------------------- normal form

  function Lower(s: string): (r: string)
    ensures |r| == |s|
    ensures (forall i :: 0 <= i < |s| ==> !('A' <= s[i] <= 'Z')) ==> r == s
    ensures forall i :: 0 <= i < |s| ==>
              if 'A' <= s[i] <= 'Z' then 'a' <= r[i] <= 'z' && r[i] - 'a' == s[i] - 'A' else r[i] == s[i]
  {
    seq(|s|, i requires 0 <= i < |s| => if 'A' <= s[i] <= 'Z' then s[i] + (32 as char) else s[i])
  }

  function Normalized(s: Schedule): Schedule {
    s.(kind := Lower(Trim(if s.kind == "" then "manual" else s.kind)),
       time := Trim(s.time), cronExpr := Trim(s.cronExpr), weekdays := NormalDays(s.weekdays))
  }

  lemma LowerWord(s: string)
    requires s == "" || (!IsSpace(s[0]) && !IsSpace(s[|s| - 1]))
    ensures Trim(Lower(s)) == Lower(s) && Lower(Lower(s)) == Lower(s)
  {
    TrimWord(Lower(s));
    assert forall i :: 0 <= i < |s| ==> !('A' <= Lower(s)[i] <= 'Z');
  }

  /** Tidying twice changes nothing more, but for a kind of nothing but white space: that is emptied first and "manual" only then. */
  lemma NormalizedTwiceIff(s: Schedule)
    ensures Normalized(Normalized(s)) == Normalized(s) <==> s.kind == "" || Trim(s.kind) != ""
  {
    var kind := if s.kind == "" then "manual" else s.kind;
    TrimTwice(kind);
    TrimTwice(s.time);
    TrimTwice(s.cronExpr);
    TrimLeftStart(kind);
    TrimRightEnds(TrimLeft(kind));
    TrimWord("manual");
    LowerWord(Trim(kind));
    LowerWord("manual");
    IncreasingUnique(NormalDays(NormalDays(s.weekdays)), NormalDays(s.weekdays));
  }

  /** A strict "HH:MM". */
  function ParseClockTime(v: string): Option<(int, int)> {
    if |v| == 5 && v[2] == ':' && AllDigits(v[..2]) && AllDigits(v[3..]) then Some((Number(v[..2]), Number(v[3..]))) else None
  }

  function DigitAt(v: string, i: nat): int
    requires i < |v|
  {
    v[i] as int - '0' as int
  }

  /** Two digits for the hour, a colon, two digits for the minute, and nothing else is a time of day. */
  lemma ClockDigits(v: string)
    ensures ParseClockTime(v).Some? <==>
              |v| == 5 && v[2] == ':' && IsDigit(v[0]) && IsDigit(v[1]) && IsDigit(v[3]) && IsDigit(v[4])
    ensures ParseClockTime(v).Some? ==>
              ParseClockTime(v).value == (10 * DigitAt(v, 0) + DigitAt(v, 1), 10 * DigitAt(v, 3) + DigitAt(v, 4))
  {
    if |v| == 5 {
      TwoDigitNumber(v[..2]);
      TwoDigitNumber(v[3..]);
      assert v[..2][0] == v[0] && v[..2][1] == v[1] && v[3..][0] == v[3] && v[3..][1] == v[4];
    }
  }

  lemma TwoDigitNumber(v: string)
    requires |v| == 2
    ensures AllDigits(v) <==> IsDigit(v[0]) && IsDigit(v[1])
    ensures AllDigits(v) ==> Number(v) == 10 * DigitAt(v, 0) + DigitAt(v, 1)
  {
    if AllDigits(v) {
      var ten := v[..1];
      assert ten == [v[0]] && ten[..0] == "";
      assert Number(ten) == Number(ten[..0]) * 10 + Value(ten[0]) == Value(v[0]);
    }
  }

  predicate ValidClockTime(v: string) {
    var c := ParseClockTime(v);
    c.Some? && c.value.0 <= 23 && c.value.1 <= 59
  }

  predicate ValidPreset(s: Schedule) {
    var n := Normalized(s);
    if n.kind == "hourly" then 0 <= n.minute <= 59
    else if n.kind == "daily" then ValidClockTime(n.time)
    else if n.kind == "weekly" then
      ValidClockTime(n.time) && n.weekdays != [] && forall d :: d in n.weekdays ==> 0 <= d <= 6
    else n.kind == "monthly" && ValidClockTime(n.time) && 1 <= n.dayOfMonth <= LAST_DAY_OF_MONTH
  }

  predicate Valid(s: Schedule, parses: string -> bool) {
    var n := Normalized(s);
    if n.kind == "manual" then true
    else if n.kind == "advanced" then n.cronExpr != "" && parses(n.cronExpr)
    else ValidPreset(s)
  }

  /** Only the fields the schedule's kind gives meaning to. */
  function Canonical(s: Schedule): Schedule {
    var n := Normalized(s);
    var b := BLANK.(kind := n.kind);
    if n.kind == "hourly" then b.(minute := n.minute)
    else if n.kind == "daily" then b.(time := n.time)
    else if n.kind == "weekly" then b.(time := n.time, weekdays := n.weekdays)
    else if n.kind == "monthly" then b.(time := n.time, dayOfMonth := n.dayOfMonth)
    else if n.kind == "advanced" then b.(cronExpr := n.cronExpr)
    else b
  }

  // --------------------------------------------------------------- cron text

  function Decimal(n: int): string {
    if n < 0 then "-" + Itoa(-n) else Itoa(n)
  }

  function Decimals(days: seq<int>): (r: seq<string>)
    ensures |r| == |days| && forall i :: 0 <= i < |r| ==> r[i] == Decimal(days[i])
  {
    seq(|days|, i requires 0 <= i < |days| => Decimal(days[i]))
  }

  function Cron(s: Schedule): string {
    var n := Normalized(s);
    var c := ParseClockTime(n.time);
    var (hour, minute) := if c.Some? then c.value else (0, 0);
    if n.kind == "hourly" then Join([Decimal(n.minute), "*", "*", "*", "*"], ' ')
    else if n.kind == "daily" then Join([Decimal(minute), Decimal(hour), "*", "*", "*"], ' ')
    else if n.kind == "weekly" then
      if n.weekdays == [] then ""
      else Join([Decimal(minute), Decimal(hour), "*", "*", Join(Decimals(n.weekdays), ',')], ' ')
    else if n.kind == "monthly" then
      if n.dayOfMonth >= LAST_DAY_OF_MONTH then Join([Decimal(minute), Decimal(hour), LAST_DAY_CRON_DAYS, "*", "*"], ' ')
      else if n.dayOfMonth < 1 then ""
      else Join([Decimal(minute), Decimal(hour), Decimal(n.dayOfMonth), "*", "*"], ' ')
    else if n.kind == "advanced" then n.cronExpr
    else ""
  }

  // ------------------------------------------------------- reading cron text

  function CronInt(field: string, lo: int, hi: int): Option<int> {
    if !AllDigits(field) then None
    else if Number(field) < lo || Number(field) > hi then None
    else Some(Number(field))
  }

  function CronInts(parts: seq<string>, lo: int, hi: int): Option<seq<int>> {
    if parts == [] then Some([]) else
      var first := CronInt(Trim(parts[0]), lo, hi);
      var rest := CronInts(parts[1..], lo, hi);
      if first.None? || rest.None? then None else Some([first.value] + rest.value)
  }

  function CronIntList(field: string, lo: int, hi: int): Option<seq<int>> {
    var ns := CronInts(Split(field, ','), lo, hi);
    if ns.None? then None else Some(NormalDays(ns.value))
  }

  function ClockText(hour: nat, minute: nat): string {
    Pad(hour, 2) + ":" + Pad(minute, 2)
  }

  /** The preset that five cron fields express. */
  function PresetOf(f: seq<string>): Option<Schedule>
    requires |f| == 5
  {
    if f[3] != "*" then None else
      var minute := CronInt(f[0], 0, 59);
      if minute.None? then None
      else if f[1] == "*" then
        if f[2] == "*" && f[4] == "*" then Some(BLANK.(kind := "hourly", minute := minute.value)) else None
      else
        var hour := CronInt(f[1], 0, 23);
        if hour.None? then None else DailyPreset(ClockText(hour.value, minute.value), f[2], f[4])
  }

  function DailyPreset(clock: string, dom: string, dow: string): Option<Schedule> {
    if dom == "*" && dow == "*" then Some(BLANK.(kind := "daily", time := clock))
    else if dom == "*" then
      var days := CronIntList(dow, 0, 6);
      if days.None? then None else Some(BLANK.(kind := "weekly", time := clock, weekdays := days.value))
    else if dow == "*" then
      if dom == LAST_DAY_CRON_DAYS then Some(BLANK.(kind := "monthly", time := clock, dayOfMonth := LAST_DAY_OF_MONTH))
      else
        var day := CronInt(dom, 1, 31);
        if day.None? then None else Some(BLANK.(kind := "monthly", time := clock, dayOfMonth := day.value))
    else None
  }

  function SchedulePreset(spec: string): Option<Schedule> {
    var f := Fields(spec);
    if |f| != 5 then None else PresetOf(f)
  }

  function ParseLegacySchedule(raw: string): Schedule {
    var spec := Trim(raw);
    if spec == "" || spec == "manual" then MANUAL else
      var p := SchedulePreset(spec);
      if p.Some? then p.value else BLANK.(kind := "advanced", cronExpr := spec)
  }

  /** The loop that reads a list of numbers. */
  method ReadCronIntList(field: string, lo: int, hi: int) returns (days: Option<seq<int>>)
    ensures days == CronIntList(field, lo, hi)
  {
    var parts := Split(field, ',');
    var out: seq<int> := [];
    assert parts[0..] == parts;
    assert forall v: seq<int> :: [] + v == v;
    for i := 0 to |parts|
      invariant CronInts(parts, lo, hi)
                  == if CronInts(parts[i..], lo, hi).None? then None else Some(out + CronInts(parts[i..], lo, hi).value)
    {
      assert parts[i..][1..] == parts[i + 1..];
      var n := CronInt(Trim(parts[i]), lo, hi);
      if n.None? {
        return None;
      }
      ghost var rest := CronInts(parts[i + 1..], lo, hi);
      assert rest.Some? ==> out + [n.value] + rest.value == out + ([n.value] + rest.value);
      out := out + [n.value];
    }
    assert parts[|parts|..] == [] && out + [] == out;
    var sorted := NormalizeWeekdays(out);
    return Some(sorted);
  }

  // -------------------------------------------------------------- round trip

  lemma DigitsAreWords(s: string)
    requires AllDigits(s)
    ensures IsWord(s) && ',' !in s && '-' !in s && s != "*" && s != LAST_DAY_CRON_DAYS
  {
    assert LAST_DAY_CRON_DAYS[2] == '-';
    assert s[0] != '*';
  }

  lemma CronIntDecimal(n: int, lo: int, hi: int)
    requires 0 <= lo <= n <= hi
    ensures AllDigits(Decimal(n)) && IsWord(Decimal(n)) && CronInt(Decimal(n), lo, hi) == Some(n) && Trim(Decimal(n)) == Decimal(n)
  {
    NumberItoa(n);
    DigitsAreWords(Itoa(n));
    TrimWord(Itoa(n));
  }

  lemma {:induction false} CronIntsDecimals(days: seq<int>, lo: int, hi: int)
    requires 0 <= lo && forall i :: 0 <= i < |days| ==> lo <= days[i] <= hi
    ensures CronInts(Decimals(days), lo, hi) == Some(days)
  {
    if days != [] {
      CronIntDecimal(days[0], lo, hi);
      CronIntsDecimals(days[1..], lo, hi);
      hide CronInt, Trim, Decimal, AllDigits, IsWord;
      var parts := Decimals(days);
      assert |parts| == |days|;
      assert parts[0] == Decimal(days[0]);
      assert parts[1..] == Decimals(days[1..]);
      assert days == [days[0]] + days[1..];
    }
  }

  lemma {:induction false} JoinIsWord(parts: seq<string>)
    requires parts != [] && forall i :: 0 <= i < |parts| ==> IsWord(parts[i])
    ensures IsWord(Join(parts, ','))
    ensures AllDigits(parts[0]) ==> Join(parts, ',')[0] != '*'
    decreases |parts|
  {
    if |parts| > 1 {
      JoinIsWord(parts[1..]);
    }
  }

  lemma DayListRoundTrips(days: seq<int>, lo: int, hi: int)
    requires days != [] && 0 <= lo && forall d :: d in days ==> lo <= d <= hi
    ensures var text := Join(Decimals(days), ',');
            IsWord(text) && text != "*" && CronIntList(text, lo, hi) == Some(NormalDays(days))
  {
    var parts := Decimals(days);
    forall i | 0 <= i < |parts|
      ensures IsWord(parts[i]) && ',' !in parts[i] && AllDigits(parts[i])
    {
      assert days[i] in days;
      CronIntDecimal(days[i], lo, hi);
      DigitsAreWords(parts[i]);
    }
    JoinIsWord(parts);
    SplitJoin(parts, ',');
    assert forall i :: 0 <= i < |days| ==> days[i] in days;
    CronIntsDecimals(days, lo, hi);
  }

  lemma ClockRoundTrips(v: string)
    requires ValidClockTime(v)
    ensures var c := ParseClockTime(v).value; ClockText(c.0, c.1) == v && 0 <= c.0 <= 23 && 0 <= c.1 <= 59
  {
    PadNumber(v[..2]);
    PadNumber(v[3..]);
    assert v == v[..2] + ":" + v[3..];
  }

  lemma ClockTextParses(hour: nat, minute: nat)
    requires hour <= 23 && minute <= 59
    ensures ParseClockTime(ClockText(hour, minute)) == Some((hour, minute)) && Trim(ClockText(hour, minute)) == ClockText(hour, minute)
  {
    var v := ClockText(hour, minute);
    assert Pow10(2) == 100;
    NumberPad(hour, 2);
    NumberPad(minute, 2);
    assert v[..2] == Pad(hour, 2) && v[3..] == Pad(minute, 2) && v[2] == ':';
    assert IsDigit(v[0]) && IsDigit(v[4]);
    TrimWord(v);
  }

  /** What reading five fields back gives. */
  lemma ReadsBack(f: seq<string>)
    requires |f| == 5 && (forall i :: 0 <= i < 5 ==> IsWord(f[i])) && PresetOf(f).Some?
    ensures Fields(Join(f, ' ')) == f && Join(f, ' ') != ""
    ensures ParseLegacySchedule(Join(f, ' ')) == PresetOf(f).value
  {
    hide Fields, Join, Trim, PresetOf, IsWord;
    FieldsJoin(f);
    ManualIsOneWord();
  }

  lemma ManualIsOneWord()
    ensures Fields("manual") == ["manual"]
  {
    FieldsFirst("manual", "");
  }

  /** A valid preset's five cron fields. */
  function CronFields(n: Schedule): (f: seq<string>)
    requires n.kind in {"hourly", "daily", "weekly", "monthly"}
    ensures |f| == 5
  {
    var c := ParseClockTime(n.time);
    var (hour, minute) := if c.Some? then c.value else (0, 0);
    if n.kind == "hourly" then [Decimal(n.minute), "*", "*", "*", "*"]
    else
      [Decimal(minute), Decimal(hour),
       if n.kind != "monthly" then "*" else if n.dayOfMonth >= LAST_DAY_OF_MONTH then LAST_DAY_CRON_DAYS else Decimal(n.dayOfMonth),
       "*", if n.kind == "weekly" then Join(Decimals(n.weekdays), ',') else "*"]
  }

  lemma CronIsItsFields(s: Schedule)
    requires ValidPreset(s)
    ensures Cron(s) == Join(CronFields(Normalized(s)), ' ')
  {
  }

  lemma StarIsWord()
    ensures IsWord("*")
  {
  }

  lemma FieldsGiveThePreset(s: Schedule)
    requires ValidPreset(s)
    ensures var f := CronFields(Normalized(s)); (forall i :: 0 <= i < 5 ==> IsWord(f[i])) && PresetOf(f) == Some(Canonical(s))
  {
    hide IsWord, DailyPreset, CronInt, ParseClockTime, Decimal, Trim;
    var n := Normalized(s);
    StarIsWord();
    if n.kind == "hourly" {
      CronIntDecimal(n.minute, 0, 59);
    } else {
      DayFieldsGiveTheRest(n);
      ClockFieldsGiveTheTime(n);
    }
  }

  lemma ClockFieldsGiveTheTime(n: Schedule)
    requires n.kind in {"daily", "weekly", "monthly"} && ValidClockTime(n.time)
    ensures var f := CronFields(n); IsWord(f[0]) && IsWord(f[1]) && IsWord(f[3]) && PresetOf(f) == DailyPreset(n.time, f[2], f[4])
  {
    hide DailyPreset, ParseClockTime, CronInt, Decimal, ClockText, IsWord, AllDigits, Join, Trim;
    StarIsWord();
    ClockRoundTrips(n.time);
    var (hour, minute) := ParseClockTime(n.time).value;
    CronIntDecimal(minute, 0, 59);
    CronIntDecimal(hour, 0, 23);
    DigitsAreWords(Decimal(hour));
  }

  lemma DayFieldsGiveTheRest(n: Schedule)
    requires n.kind in {"daily", "weekly", "monthly"}
    requires n.kind == "weekly" ==> n.weekdays != [] && Increasing(n.weekdays) && forall d :: d in n.weekdays ==> 0 <= d <= 6
    requires n.kind == "monthly" ==> 1 <= n.dayOfMonth <= LAST_DAY_OF_MONTH
    ensures var f := CronFields(n);
            && IsWord(f[2]) && IsWord(f[4])
            && DailyPreset(n.time, f[2], f[4])
                 == Some(BLANK.(kind := n.kind, time := n.time, weekdays := if n.kind == "weekly" then n.weekdays else [],
                                dayOfMonth := if n.kind == "monthly" then n.dayOfMonth else 0))
  {
    if n.kind == "weekly" {
      DayListRoundTrips(n.weekdays, 0, 6);
      IncreasingUnique(NormalDays(n.weekdays), n.weekdays);
    } else if n.kind == "monthly" && n.dayOfMonth < LAST_DAY_OF_MONTH {
      CronIntDecimal(n.dayOfMonth, 1, 31);
      DigitsAreWords(Decimal(n.dayOfMonth));
    }
  }

  /**
   * Reading the expression a valid schedule generates gives the schedule back,
   * up to the fields its kind ignores.
   */
  lemma CronRoundTrips(s: Schedule, parses: string -> bool)
    requires Valid(s, parses) && Normalized(s).kind != "advanced"
    ensures ParseLegacySchedule(Cron(s)) == Canonical(s)
  {
    if ValidPreset(s) {
      CronIsItsFields(s);
      FieldsGiveThePreset(s);
      ReadsBack(CronFields(Normalized(s)));
    }
  }
}
