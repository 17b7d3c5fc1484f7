/** Vocabulary shared by every component: optional values, results and byte strings. */
module Base {
  datatype Option<+T> = None | Some(value: T)

  datatype Result<+T, +E> = Ok(value: T) | Err(error: E)

  type Byte = x: int | 0 <= x < 256

  type Bytes = seq<Byte>

  function Min(a: int, b: int): int {
    if a <= b then a else b
  }

  /** Whether one call on something outside fails: never while it works, and whenever it likes otherwise. */
  method Fails(works: bool) returns (fails: bool)
    ensures works ==> !fails
  {
    fails := *;
    fails := fails && !works;
  }

  /** The concatenation of a list of byte strings. */
  function Flatten(parts: seq<Bytes>): Bytes {
    if parts == [] then [] else parts[0] + Flatten(parts[1..])
  }

  lemma {:induction false} FlattenAppend(a: seq<Bytes>, b: seq<Bytes>)
    ensures Flatten(a + b) == Flatten(a) + Flatten(b)
  {
    if a == [] {
      assert a + b == b;
    } else {
      assert (a + b)[1..] == a[1..] + b;
      FlattenAppend(a[1..], b);
    }
  }

  lemma FlattenLast(parts: seq<Bytes>)
    requires parts != []
    ensures Flatten(parts) == Flatten(parts[..|parts| - 1]) + parts[|parts| - 1]
  {
    var n := |parts| - 1;
    FlattenAppend(parts[..n], [parts[n]]);
    assert parts == parts[..n] + [parts[n]];
    assert Flatten([parts[n]]) == parts[n] + Flatten([parts[n]][1..]);
  }

  /** The elements of a sequence are pairwise different. */
  ghost predicate Distinct<T>(s: seq<T>) {
    forall i, j :: 0 <= i < j < |s| ==> s[i] != s[j]
  }

  /** Sum of f over a finite set. */
  ghost function SumOver<T(!new)>(s: set<T>, f: T -> int): int {
    if s == {} then 0 else
      var x :| x in s;
      f(x) + SumOver(s - {x}, f)
  }

  /** The sum does not depend on the order in which elements are taken. */
  lemma {:induction false} SumOverRemove<T(!new)>(s: set<T>, f: T -> int, y: T)
    requires y in s
    ensures SumOver(s, f) == f(y) + SumOver(s - {y}, f)
    decreases s
  {
    var x :| x in s && SumOver(s, f) == f(x) + SumOver(s - {x}, f);
    if x != y {
      SumOverRemove(s - {x}, f, y);
      SumOverRemove(s - {y}, f, x);
      assert s - {x} - {y} == s - {y} - {x};
    }
  }

  lemma SumOverAdd<T(!new)>(s: set<T>, f: T -> int, y: T)
    requires y !in s
    ensures SumOver(s + {y}, f) == SumOver(s, f) + f(y)
  {
    SumOverRemove(s + {y}, f, y);
    assert s + {y} - {y} == s;
  }
}
