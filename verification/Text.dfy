/** Byte-wise string order, decimal digits, and splitting at a separator. */
module Text {
  // ------------------------------------------------------------------- order

  /** Lexicographic order by character, as Go and SQLite compare text. */
  predicate Less(a: string, b: string) {
    if b == "" then false
    else if a == "" then true
    else a[0] < b[0] || (a[0] == b[0] && Less(a[1..], b[1..]))
  }

  lemma {:induction false} LessIrreflexive(a: string)
    ensures !Less(a, a)
  {
    if a != "" {
      LessIrreflexive(a[1..]);
    }
  }

  lemma {:induction false} LessTotal(a: string, b: string)
    ensures Less(a, b) || a == b || Less(b, a)
    ensures !(Less(a, b) && Less(b, a))
    ensures !Less(a, a)
    decreases |a|
  {
    LessIrreflexive(a);
    if a != "" && b != "" {
      LessTotal(a[1..], b[1..]);
      if a[0] == b[0] && a[1..] == b[1..] {
        assert a == [a[0]] + a[1..] && b == [b[0]] + b[1..];
      }
    }
  }

  lemma {:induction false} LessTransitive(a: string, b: string, c: string)
    requires Less(a, b) && Less(b, c)
    ensures Less(a, c)
    decreases |a|
  {
    if a != "" && a[0] == b[0] && b[0] == c[0] {
      LessTransitive(a[1..], b[1..], c[1..]);
    }
  }

  /** Strings that agree in length on a first part compare by that part, then by the rest. */
  lemma {:induction false} LessConcat(a: string, b: string, x: string, y: string)
    requires |a| == |b|
    ensures Less(a + x, b + y) <==> Less(a, b) || (a == b && Less(x, y))
    decreases |a|
  {
    LessTotal(a, a);
    if a == "" {
      assert a + x == x && b + y == y;
    } else {
      assert (a + x)[1..] == a[1..] + x && (b + y)[1..] == b[1..] + y;
      LessConcat(a[1..], b[1..], x, y);
      if a[0] == b[0] && a[1..] == b[1..] {
        assert a == [a[0]] + a[1..] && b == [b[0]] + b[1..];
      }
    }
  }

  // ------------------------------------------------------------------ digits

  predicate IsDigit(c: char) {
    '0' <= c <= '9'
  }

  predicate AllDigits(s: string) {
    s != "" && forall i :: 0 <= i < |s| ==> IsDigit(s[i])
  }

  function Digit(d: nat): (c: char)
    requires d < 10
    ensures IsDigit(c) && Value(c) == d
  {
    '0' + d as char
  }

  function Value(c: char): nat
    requires IsDigit(c)
    ensures Value(c) < 10
  {
    (c - '0') as nat
  }

  function Pow10(w: nat): (p: nat)
    ensures p > 0
  {
    if w == 0 then 1 else 10 * Pow10(w - 1)
  }

  /** The last `w` decimal digits of `n`, zero padded. */
  function Pad(n: nat, w: nat): (s: string)
    ensures |s| == w && forall i :: 0 <= i < |s| ==> IsDigit(s[i])
    decreases w
  {
    if w == 0 then "" else Pad(n / 10, w - 1) + [Digit(n % 10)]
  }

  /** The number a run of digits spells. */
  function Number(s: string): nat
    requires forall i :: 0 <= i < |s| ==> IsDigit(s[i])
  {
    if s == "" then 0 else Number(s[..|s| - 1]) * 10 + Value(s[|s| - 1])
  }

  lemma {:induction false} NumberPad(n: nat, w: nat)
    requires n < Pow10(w)
    ensures Number(Pad(n, w)) == n
    decreases w
  {
    if w > 0 {
      var s := Pad(n, w);
      assert s[..|s| - 1] == Pad(n / 10, w - 1);
      assert n / 10 < Pow10(w - 1);
      NumberPad(n / 10, w - 1);
    }
  }

  lemma {:induction false} PadNumber(s: string)
    requires forall i :: 0 <= i < |s| ==> IsDigit(s[i])
    ensures Number(s) < Pow10(|s|) && Pad(Number(s), |s|) == s
    decreases |s|
  {
    if s != "" {
      var front := s[..|s| - 1];
      PadNumber(front);
      var n := Number(s);
      assert n / 10 == Number(front) && n % 10 == Value(s[|s| - 1]);
      assert s == front + [s[|s| - 1]];
    }
  }

  /** Fixed-width numbers sort as text the way they sort as numbers. */
  lemma {:induction false} PadOrder(m: nat, n: nat, w: nat)
    requires m < Pow10(w) && n < Pow10(w)
    ensures Less(Pad(m, w), Pad(n, w)) <==> m < n
    ensures Pad(m, w) == Pad(n, w) <==> m == n
    decreases w
  {
    NumberPad(m, w);
    NumberPad(n, w);
    if w > 0 {
      hide Less, Number;
      PadOrder(m / 10, n / 10, w - 1);
      LessConcat(Pad(m / 10, w - 1), Pad(n / 10, w - 1), [Digit(m % 10)], [Digit(n % 10)]);
      DigitOrder(m % 10, n % 10);
      TenthsThenOnes(m, n);
    }
  }

  lemma DigitOrder(a: nat, b: nat)
    requires a < 10 && b < 10
    ensures Less([Digit(a)], [Digit(b)]) <==> a < b
  {
  }

  lemma TenthsThenOnes(m: nat, n: nat)
    ensures m < n <==> m / 10 < n / 10 || (m / 10 == n / 10 && m % 10 < n % 10)
  {
  }

  /** Decimal without padding. */
  function Itoa(n: nat): (s: string)
    ensures AllDigits(s)
  {
    if n < 10 then [Digit(n)] else Itoa(n / 10) + [Digit(n % 10)]
  }

  lemma {:induction false} NumberItoa(n: nat)
    ensures Number(Itoa(n)) == n
  {
    var s := Itoa(n);
    if n < 10 {
      assert s[..|s| - 1] == "";
    } else {
      NumberItoa(n / 10);
      assert s[..|s| - 1] == Itoa(n / 10);
    }
  }

  // ------------------------------------------------------------- split and join

  /** The index of the first `c` at or after `from`, or the length. */
  function Find(s: string, c: char, from: nat): (i: nat)
    requires from <= |s|
    ensures from <= i <= |s|
    ensures forall j :: from <= j < i ==> s[j] != c
    ensures i < |s| ==> s[i] == c
    decreases |s| - from
  {
    if from == |s| || s[from] == c then from else Find(s, c, from + 1)
  }

  /** The parts of a string between separators; an empty string is one empty part. */
  function Split(s: string, c: char): (parts: seq<string>)
    ensures parts != [] && forall i :: 0 <= i < |parts| ==> c !in parts[i]
    decreases |s|
  {
    var i := Find(s, c, 0);
    if i == |s| then [s] else [s[..i]] + Split(s[i + 1..], c)
  }

  function Join(parts: seq<string>, c: char): string {
    if parts == [] then ""
    else if |parts| == 1 then parts[0]
    else parts[0] + [c] + Join(parts[1..], c)
  }

  lemma {:induction false} JoinSplit(s: string, c: char)
    ensures Join(Split(s, c), c) == s
    decreases |s|
  {
    var i := Find(s, c, 0);
    if i < |s| {
      JoinSplit(s[i + 1..], c);
      assert Split(s, c)[1..] == Split(s[i + 1..], c);
      assert s == s[..i] + [c] + s[i + 1..];
    }
  }

  lemma SplitFirst(part: string, c: char, rest: string)
    requires c !in part
    ensures Split(part + [c] + rest, c) == [part] + Split(rest, c)
    ensures Split(part, c) == [part]
  {
    var s := part + [c] + rest;
    var i := Find(s, c, 0);
    assert s[|part|] == c;
    assert forall j :: 0 <= j < |part| ==> s[j] == part[j];
    assert i == |part|;
    assert s[..i] == part && s[i + 1..] == rest;
    assert Find(part, c, 0) == |part|;
  }

  lemma {:induction false} SplitJoin(parts: seq<string>, c: char)
    requires parts != [] && forall i :: 0 <= i < |parts| ==> c !in parts[i]
    ensures Split(Join(parts, c), c) == parts
    decreases |parts|
  {
    if |parts| == 1 {
      SplitFirst(parts[0], c, "");
    } else {
      SplitJoin(parts[1..], c);
      SplitFirst(parts[0], c, Join(parts[1..], c));
      assert parts == [parts[0]] + parts[1..];
    }
  }
}
