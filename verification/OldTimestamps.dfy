/**
 * The timestamps earlier releases wrote: RFC 3339 text whose fraction drops its
 * trailing zeros, with an offset from UTC.  How they are read, and why they have
 * to be rewritten.
 */
module OldTimestamps {
  import opened Base
  import opened Text
  import opened Calendar
  import opened Timestamps

  // ---------------------------------------------------------------- fractions

  function DropZeros(s: string): (r: string)
    ensures |r| <= |s| && r == s[..|r|] && (r != "" ==> r[|r| - 1] != '0')
  {
    if s != "" && s[|s| - 1] == '0' then DropZeros(s[..|s| - 1]) else s
  }

  /** A fraction of a second without its trailing zeros, and nothing when there is none. */
  function FractionText(ns: nat): string {
    if ns == 0 then "" else "." + DropZeros(Pad(ns, 9))
  }

  /** Dropping zeros divides by the power of ten they stood for. */
  lemma {:induction false} DropZerosValue(s: string)
    requires forall i :: 0 <= i < |s| ==> IsDigit(s[i])
    ensures Number(DropZeros(s)) * Pow10(|s| - |DropZeros(s)|) == Number(s)
  {
    if s != "" && s[|s| - 1] == '0' {
      var front := s[..|s| - 1];
      DropZerosValue(front);
      var r := DropZeros(front);
      assert Pow10(|s| - |r|) == 10 * Pow10(|front| - |r|);
      TenTimes(Number(r), Pow10(|front| - |r|));
      assert Number(s) == Number(front) * 10 + 0;
    }
  }

  lemma TenTimes(a: nat, b: nat)
    ensures a * (10 * b) == 10 * (a * b)
  {
  }

  /** How many digits a text starts with, when something else follows them. */
  lemma {:induction false} DigitRunIs(d: string, z: string)
    requires (forall i :: 0 <= i < |d| ==> IsDigit(d[i])) && (z == "" || !IsDigit(z[0]))
    ensures DigitRun(d + z) == |d|
  {
    if d == "" {
      assert d + z == z;
    } else {
      assert (d + z)[1..] == d[1..] + z;
      DigitRunIs(d[1..], z);
    }
  }

  lemma TakeDigits(sep: char, d: string, z: string)
    requires (sep == '.' || sep == ',') && d != "" && (forall i :: 0 <= i < |d| ==> IsDigit(d[i])) && (z == "" || !IsDigit(z[0]))
    ensures var m := Min(|d|, 9);
            TakeFraction([sep] + d + z) == (Number(d[..m]) * Pow10(9 - m), z)
  {
    var s := [sep] + d + z;
    var m := Min(|d|, 9);
    assert s[1..] == d + z && s[1] == d[0];
    DigitRunIs(d, z);
    assert s[1..1 + m] == d[..m] && s[1 + |d|..] == z;
  }

  lemma {:induction false} NumberSplits(d: string, m: nat)
    requires m <= |d| && forall i :: 0 <= i < |d| ==> IsDigit(d[i])
    ensures Number(d) == Number(d[..m]) * Pow10(|d| - m) + Number(d[m..])
    ensures Number(d[m..]) < Pow10(|d| - m)
    decreases |d|
  {
    hide Number, Pow10;
    NoDigits();
    if m == |d| {
      assert d[..m] == d && d[m..] == "";
    } else {
      var front, last := d[..|d| - 1], Value(d[|d| - 1]);
      NumberSplits(front, m);
      NumberLast(d);
      NumberLast(d[m..]);
      assert front[..m] == d[..m] && front[m..] == d[m..][..|d| - m - 1];
      PowNext(|d| - 1 - m);
      OneMoreDigit(Number(d[..m]), Pow10(|d| - 1 - m), Number(front[m..]), last);
    }
  }

  lemma OneMoreDigit(a: nat, p: nat, rest: nat, last: nat)
    requires rest < p && last < 10
    ensures (a * p + rest) * 10 + last == a * (10 * p) + (rest * 10 + last)
    ensures rest * 10 + last < 10 * p
  {
    TenTimes(a, p);
  }

  lemma NumberLast(s: string)
    requires s != "" && forall i :: 0 <= i < |s| ==> IsDigit(s[i])
    ensures Number(s) == Number(s[..|s| - 1]) * 10 + Value(s[|s| - 1])
  {
  }

  lemma PowNext(w: nat)
    ensures Pow10(w + 1) == 10 * Pow10(w) && Pow10(0) == 1
  {
  }

  lemma NoDigits()
    ensures Number("") == 0 && Pow10(0) == 1
  {
  }

  lemma {:induction false} PowAdds(a: nat, b: nat)
    ensures Pow10(a + b) == Pow10(a) * Pow10(b)
  {
    if a > 0 {
      PowAdds(a - 1, b);
      assert Pow10(a + b) == 10 * Pow10(a - 1 + b);
      TenTimes(Pow10(b), Pow10(a - 1));
    }
  }

  /**
   * However many digits a fraction is written with, it is read as the whole
   * nanoseconds in it: ns / 10^9 is at most the decimal fraction 0.d, and the
   * next nanosecond is more than it.
   */
  lemma FractionIsRead(sep: char, d: string, z: string)
    requires (sep == '.' || sep == ',') && d != "" && (forall i :: 0 <= i < |d| ==> IsDigit(d[i])) && (z == "" || !IsDigit(z[0]))
    ensures var (ns, rest) := TakeFraction([sep] + d + z);
            rest == z && ns * Pow10(|d|) <= Number(d) * Pow10(9) < (ns + 1) * Pow10(|d|)
  {
    hide TakeFraction, Number, Pow10;
    TakeDigits(sep, d, z);
    if |d| <= 9 {
      assert d[..|d|] == d;
      PowAdds(9 - |d|, |d|);
      Exact(Number(d), Pow10(9 - |d|), Pow10(|d|));
    } else {
      NumberSplits(d, 9);
      PowAdds(|d| - 9, 9);
      NoDigits();
      Floor(Number(d[..9]), Number(d[9..]), Pow10(|d| - 9), Pow10(9));
    }
  }

  lemma Exact(a: nat, b: nat, c: nat)
    requires b > 0 && c > 0
    ensures a * b * c == a * (b * c) < (a * b + 1) * c
  {
    assert (a * b + 1) * c == a * b * c + c;
  }

  lemma Floor(a: nat, rest: nat, p: nat, q: nat)
    requires rest < p && q > 0
    ensures a * (p * q) <= (a * p + rest) * q < (a + 1) * (p * q)
  {
    Spread(a, p, q, rest);
    Spread(a, p, q, p);
    TimesKeepsOrder(rest, p, q);
  }

  lemma TimesKeepsOrder(rest: nat, p: nat, q: nat)
    requires rest < p && q > 0
    ensures rest * q < p * q
  {
  }

  lemma Spread(a: nat, p: nat, q: nat, r: nat)
    ensures (a * p + r) * q == a * (p * q) + r * q
    ensures (a + 1) * (p * q) == a * (p * q) + p * q
  {
  }

  lemma ShortFraction(ns: nat)
    requires 0 < ns < SECOND
    ensures var d := DropZeros(Pad(ns, 9));
            && 0 < |d| <= 9 && (forall i :: 0 <= i < |d| ==> IsDigit(d[i]))
            && Number(d) * Pow10(9 - |d|) == ns
  {
    hide Pow10, DropZeros, Pad, Number;
    var p := Pad(ns, 9);
    TwoAndNine();
    NumberPad(ns, 9);
    DropZerosValue(p);
    NoDigits();
  }

  /** A fraction written without its trailing zeros reads as what it was. */
  lemma FractionReads(ns: nat, z: string)
    requires ns < SECOND && z != "" && !IsDigit(z[0]) && z[0] != '.' && z[0] != ','
    ensures TakeFraction(FractionText(ns) + z) == (ns, z)
  {
    hide Number, Pow10, DropZeros, Pad;
    if ns == 0 {
      assert FractionText(ns) + z == z;
    } else {
      var d := DropZeros(Pad(ns, 9));
      ShortFraction(ns);
      TakeDigits('.', d, z);
      assert d[..|d|] == d;
      assert FractionText(ns) + z == ['.'] + d + z;
    }
  }

  // ------------------------------------------------------------------ offsets

  /** An offset from UTC in minutes. */
  function ZoneText(off: int): string {
    if off == 0 then "Z"
    else if off > 0 then "+" + Pad(off / 60, 2) + ":" + Pad(off % 60, 2)
    else "-" + Pad(-off / 60, 2) + ":" + Pad(-off % 60, 2)
  }

  predicate IsOffset(off: int) {
    -25 * 60 < off < 25 * 60
  }

  lemma ZoneReads(off: int)
    requires IsOffset(off)
    ensures TakeZone(ZoneText(off)) == Some(off * 60)
    ensures var z := ZoneText(off); z != "" && !IsDigit(z[0]) && z[0] != '.' && z[0] != ','
  {
    if off > 0 {
      SignedZone('+', off);
    } else if off < 0 {
      SignedZone('-', -off);
    }
  }

  lemma SignedZone(sign: char, a: int)
    requires 0 < a < 25 * 60 && (sign == '+' || sign == '-')
    ensures TakeZone([sign] + Pad(a / 60, 2) + ":" + Pad(a % 60, 2)) == Some(if sign == '-' then -a * 60 else a * 60)
  {
    var h, m := Pad(a / 60, 2), Pad(a % 60, 2);
    TwoAndNine();
    NumberPad(a / 60, 2);
    NumberPad(a % 60, 2);
    hide Pad, Number, Pow10;
    var z := [sign] + h + ":" + m;
    assert z[1..3] == h && z[3] == ':' && z[4..6] == m;
    assert a == a / 60 * 60 + a % 60;
  }

  // ------------------------------------------------------------------ the text

  /** Five two-digit fields from the i-th on, separated, and what follows the last. */
  function HeadText(f: seq<nat>, i: nat, tail: string): string
    requires |f| == 6 && i <= 4
    decreases 4 - i
  {
    if i == 4 then Pad(f[4], 2) + tail else Pad(f[i], 2) + [SEPARATORS[i]] + HeadText(f, i + 1, tail)
  }

  /** An instant as written in a zone `off` minutes ahead of UTC. */
  function NanoText(t: int, off: int): string {
    var local := t + off * 60 * SECOND;
    YearText(Year(local)) + "-" + HeadText(Parts(local), 0, FractionText(local % SECOND) + ZoneText(off))
  }

  lemma TakeHead(f: seq<nat>, i: nat, tail: string)
    requires Fit(f, WIDTHS) && i < 4
    ensures TakeField(HeadText(f, i, tail), 2, SEPARATORS[i]) == Some((f[i], HeadText(f, i + 1, tail)))
  {
    TakePad(f[i], 2, SEPARATORS[i], HeadText(f, i + 1, tail));
  }

  lemma SecondsHead(f: seq<nat>, tail: string)
    requires |f| == 6 && f[4] < 100
    ensures var r := HeadText(f, 4, tail); |r| >= 2 && AllDigits(r[..2]) && Number(r[..2]) == f[4] && r[2..] == tail
  {
    assert Pow10(2) == 100;
    NumberPad(f[4], 2);
    hide Pad, Number;
    var r := Pad(f[4], 2) + tail;
    assert r[..2] == Pad(f[4], 2) && r[2..] == tail;
  }

  lemma HeadClockReads(f: seq<nat>, off: int)
    requires |f| == 6 && Fit(f, WIDTHS) && f[2] < 24 && f[3] < 60 && f[4] < 60 && f[5] < SECOND && IsOffset(off)
    ensures ClockOf(HeadText(f, 2, FractionText(f[5]) + ZoneText(off)))
              == Some((f[2] * 3600 + f[3] * 60 + f[4] - off * 60) * SECOND + f[5])
  {
    hide HeadText, TakeField, TakeFraction, TakeZone, Number, Fit, FractionText, ZoneText, IsOffset;
    var tail := FractionText(f[5]) + ZoneText(off);
    TakeHead(f, 2, tail);
    TakeHead(f, 3, tail);
    SecondsHead(f, tail);
    ZoneReads(off);
    FractionReads(f[5], ZoneText(off));
  }

  lemma HeadFieldsRead(s: string, d: Date, f: seq<nat>, off: int)
    requires ValidDate(d) && d.year >= 0 && |f| == 6 && Fit(f, WIDTHS) && f[5] < SECOND && IsOffset(off)
    requires f[0] == d.month && f[1] == d.day && f[2] < 24 && f[3] < 60 && f[4] < 60
    requires TakeField(s, 4, '-') == Some((d.year as nat, HeadText(f, 0, FractionText(f[5]) + ZoneText(off))))
    ensures Rfc3339(s) == Some(DayNumber(d.year, d.month, d.day) * DAY + ((f[2] * 3600 + f[3] * 60 + f[4] - off * 60) * SECOND + f[5]))
  {
    hide TakeField, ClockOf, HeadText, DayNumber, Fit, Rfc3339, ValidDate, FractionText, ZoneText, IsOffset;
    var tail := FractionText(f[5]) + ZoneText(off);
    TakeHead(f, 0, tail);
    TakeHead(f, 1, tail);
    HeadClockReads(f, off);
    DateReads(s, HeadText(f, 0, tail), HeadText(f, 1, tail), HeadText(f, 2, tail), d,
              (f[2] * 3600 + f[3] * 60 + f[4] - off * 60) * SECOND + f[5]);
  }

  lemma NanoYearReads(y: int, rest: string)
    requires 0 <= y <= 9999
    ensures TakeField(YearText(y) + "-" + rest, 4, '-') == Some((y as nat, rest))
  {
    assert Pow10(4) == 10000;
    TakePad(y, 4, '-', rest);
  }

  /**
   * The text an earlier release wrote for an instant, in whatever zone it was
   * written, reads as that instant: every year 0 to 9999 of that zone, every
   * nanosecond, every offset.
   */
  lemma NanoTextReads(t: int, off: int)
    requires Representable(t + off * 60 * SECOND) && IsOffset(off)
    ensures Rfc3339(NanoText(t, off)) == Some(t) && ParseTime(NanoText(t, off)) == t
  {
    hide TakeField, Parts, HeadText, DayNumber, Fit, Rfc3339, ValidDate, DateOf, YearText, FractionText, ZoneText, IsOffset;
    var local := t + off * 60 * SECOND;
    var f, d := Parts(local), DateOf(local / DAY);
    NanoYearReads(Year(local), HeadText(f, 0, FractionText(local % SECOND) + ZoneText(off)));
    PartsAre(local);
    LastPart(local);
    DayNumberOfDate(local / DAY);
    PartsFit(local);
    HeadFieldsRead(NanoText(t, off), d, f, off);
    Shifted(f[2] * 3600 + f[3] * 60 + f[4], off, f[5]);
  }

  lemma LastPart(t: int)
    ensures Parts(t)[5] == t % SECOND && Parts(t)[5] < SECOND
  {
    hide DateOf;
    assert DAY % SECOND == 0;
    WithinTheDay(t);
  }

  lemma WithinTheDay(t: int)
    ensures t % DAY % SECOND == t % SECOND
  {
    var q := t / DAY;
    assert t == q * DAY + t % DAY && DAY == 86_400 * SECOND;
    Multiple(q * 86_400, t % DAY);
  }

  lemma Multiple(k: int, r: int)
    ensures (k * SECOND + r) % SECOND == r % SECOND
  {
    assert k * SECOND + r == (k + r / SECOND) * SECOND + r % SECOND;
    Remainder(k + r / SECOND, r % SECOND);
  }

  lemma Remainder(q: int, r: int)
    requires 0 <= r < SECOND
    ensures (q * SECOND + r) % SECOND == r
  {
  }

  lemma Shifted(seconds: int, off: int, ns: int)
    ensures (seconds - off * 60) * SECOND + ns == seconds * SECOND + ns - off * 60 * SECOND
  {
  }

  /** So normalising rewrites it as the canonical text of its instant, and nothing else. */
  lemma NanoTextIsNormalised(t: int, off: int)
    requires Representable(t + off * 60 * SECOND) && IsOffset(off) && t != ZERO
    ensures Normal(NanoText(t, off)) == FmtTime(t)
  {
    NanoTextReads(t, off);
    NothingIsNoTime();
  }

  /** After which such texts sort as their instants do, whatever zones they were written in. */
  lemma NormalisedNanoTextsSort(a: int, offA: int, b: int, offB: int)
    requires Representable(a) && Representable(a + offA * 60 * SECOND) && IsOffset(offA) && a != ZERO
    requires Representable(b) && Representable(b + offB * 60 * SECOND) && IsOffset(offB) && b != ZERO
    ensures Less(Normal(NanoText(a, offA)), Normal(NanoText(b, offB))) <==> a < b
  {
    NanoTextIsNormalised(a, offA);
    NanoTextIsNormalised(b, offB);
    TextOrderIsTimeOrder(a, b);
  }

  // ------------------------------------------------- what was wrong with them

  /** Texts with the same fields before it compare by what follows. */
  lemma {:induction false} SameHead(f: seq<nat>, g: seq<nat>, i: nat, x: string, y: string)
    requires |f| == 6 && |g| == 6 && i <= 4 && forall j :: i <= j < 5 ==> f[j] == g[j]
    ensures Less(HeadText(f, i, x), HeadText(g, i, y)) <==> Less(x, y)
    decreases 4 - i
  {
    hide Less, Pad;
    if i == 4 {
      LessConcat(Pad(f[4], 2), Pad(f[4], 2), x, y);
      LessIrreflexive(Pad(f[4], 2));
    } else {
      SameHead(f, g, i + 1, x, y);
      LessIrreflexive(Pad(f[i], 2));
      HeadOrder(Pad(f[i], 2), Pad(f[i], 2), SEPARATORS[i], HeadText(f, i + 1, x), HeadText(g, i + 1, y));
    }
  }

  /** A later moment of the same second has the same fields. */
  lemma SameSecond(t: int, ns: int)
    requires t % SECOND == 0 && 0 < ns < SECOND
    ensures Year(t + ns) == Year(t) && forall j :: 0 <= j < 5 ==> Parts(t + ns)[j] == Parts(t)[j]
    ensures (t + ns) % SECOND == ns
  {
    hide DateOf;
    var day, r := t / DAY, t % DAY;
    WithinTheDay(t);
    assert r == r / SECOND * SECOND;
    LaterInTheDay(day, r, ns);
    ClockOfLater(r / SECOND, ns);
    assert t + ns == day * DAY + (r + ns);
    Remainder(t / SECOND, ns);
  }

  lemma LaterInTheDay(day: int, r: int, ns: int)
    requires 0 <= r < DAY && r % SECOND == 0 && 0 < ns < SECOND
    ensures (day * DAY + r + ns) / DAY == day && (day * DAY + r + ns) % DAY == r + ns
  {
    assert r <= 86_399 * SECOND;
  }

  lemma ClockOfLater(s: int, ns: int)
    requires s >= 0 && 0 < ns < SECOND
    ensures (s * SECOND + ns) / SECOND == s && s * SECOND / SECOND == s
    ensures (s * SECOND + ns) / (60 * SECOND) == s / 60 == s * SECOND / (60 * SECOND)
    ensures (s * SECOND + ns) / (3600 * SECOND) == s / 3600 == s * SECOND / (3600 * SECOND)
  {
  }

  /**
   * As they stood they did not sort: a moment on the second came after every
   * other moment of that second.
   */
  lemma WholeSecondsSortedLast(t: int, ns: int)
    requires Representable(t) && t % SECOND == 0 && 0 < ns < SECOND
    ensures Less(NanoText(t + ns, 0), NanoText(t, 0))
  {
    hide Less, Parts, HeadText, FractionText, Year, YearText;
    SameSecond(t, ns);
    FractionFirst(ns);
    var x, y := FractionText(ns) + ZoneText(0), FractionText(0) + ZoneText(0);
    SameHead(Parts(t + ns), Parts(t), 0, x, y);
    LessIrreflexive(YearText(Year(t)));
    HeadOrder(YearText(Year(t)), YearText(Year(t)), '-', HeadText(Parts(t + ns), 0, x), HeadText(Parts(t), 0, y));
    assert t + 0 * 60 * SECOND == t && t + ns + 0 * 60 * SECOND == t + ns;
  }

  lemma FractionFirst(ns: nat)
    requires ns > 0
    ensures Less(FractionText(ns) + ZoneText(0), FractionText(0) + ZoneText(0))
  {
    hide DropZeros, Pad;
    var x, y := FractionText(ns) + ZoneText(0), FractionText(0) + ZoneText(0);
    assert x[0] == '.' && y == "Z";
  }
}
