/** Exclusion patterns: segments of a slash-separated path against segments of a pattern with "**". */
module Glob {
  import opened Base
  import opened Text

  /** The single-segment matcher; None is a malformed pattern. */
  type Matcher = (string, string) -> Option<bool>

  const ANY := "**"

  /** A pattern segment and where it begins and ends in the path. */
  ghost predicate Stands(m: Matcher, p: string, path: seq<string>, from: nat, to: nat) {
    && from <= to <= |path|
    && (p != ANY ==> to == from + 1 && m(p, path[from]) == Some(true))
  }

  /**
   * Where the pattern segments begin in the path: a plain segment stands for one
   * path segment it matches, "**" for any number, and what lies under the last
   * is left over.
   */
  ghost predicate Aligned(m: Matcher, pattern: seq<string>, path: seq<string>, at: seq<nat>) {
    && |at| == |pattern| + 1
    && at[0] == 0
    && (forall i {:trigger pattern[i]} :: 0 <= i < |pattern| ==> Stands(m, pattern[i], path, at[i], at[i + 1]))
  }

  ghost predicate Covers(m: Matcher, pattern: seq<string>, path: seq<string>) {
    exists at :: Aligned(m, pattern, path, at)
  }

  /** Some segment of the pattern is malformed for some segment of the path. */
  ghost predicate Malformed(m: Matcher, pattern: seq<string>, path: seq<string>) {
    exists p, s :: p in pattern && s in path && m(p, s) == None
  }

  /** An alignment of the rest, moved `skip` segments down the path. */
  ghost function Shifted(at: seq<nat>, skip: nat): seq<nat> {
    [0] + seq(|at|, i requires 0 <= i < |at| => at[i] + skip)
  }

  lemma ShiftAligns(m: Matcher, pattern: seq<string>, path: seq<string>, skip: nat, at: seq<nat>)
    requires pattern != [] && skip <= |path| && Aligned(m, pattern[1..], path[skip..], at)
    requires Stands(m, pattern[0], path, 0, skip)
    ensures Aligned(m, pattern, path, Shifted(at, skip))
  {
    var whole := Shifted(at, skip);
    assert whole[1] == skip;
    forall i {:trigger pattern[i]} | 0 <= i < |pattern|
      ensures Stands(m, pattern[i], path, whole[i], whole[i + 1])
    {
      if i > 0 {
        assert pattern[1..][i - 1] == pattern[i];
        assert Stands(m, pattern[i], path[skip..], at[i - 1], at[i]);
        assert whole[i] == at[i - 1] + skip && whole[i + 1] == at[i] + skip;
      }
    }
  }

  lemma RestAligns(m: Matcher, pattern: seq<string>, path: seq<string>, at: seq<nat>)
    requires pattern != [] && Aligned(m, pattern, path, at)
    ensures Stands(m, pattern[0], path, 0, at[1]) && Covers(m, pattern[1..], path[at[1]..])
  {
    var skip := at[1];
    assert Stands(m, pattern[0], path, at[0], at[1]);
    forall i | 1 <= i < |at|
      ensures skip <= at[i]
    {
      StartsAfter(m, pattern, path, at, i);
    }
    var rest := seq(|at| - 1, i requires 0 <= i < |at| - 1 => if at[i + 1] >= skip then at[i + 1] - skip else 0);
    forall i {:trigger pattern[1..][i]} | 0 <= i < |pattern| - 1
      ensures Stands(m, pattern[1..][i], path[skip..], rest[i], rest[i + 1])
    {
      assert pattern[1..][i] == pattern[i + 1];
      assert Stands(m, pattern[i + 1], path, at[i + 1], at[i + 2]);
      assert rest[i] == at[i + 1] - skip && rest[i + 1] == at[i + 2] - skip;
    }
    assert Aligned(m, pattern[1..], path[skip..], rest);
  }

  lemma {:induction false} StartsAfter(m: Matcher, pattern: seq<string>, path: seq<string>, at: seq<nat>, i: nat)
    requires pattern != [] && Aligned(m, pattern, path, at) && 1 <= i <= |pattern|
    ensures at[1] <= at[i]
  {
    if i > 1 {
      StartsAfter(m, pattern, path, at, i - 1);
      assert Stands(m, pattern[i - 1], path, at[i - 1], at[i]);
    }
  }

  lemma CoversNothing(m: Matcher, path: seq<string>)
    ensures Covers(m, [], path)
  {
    assert Aligned(m, [], path, [0]);
  }

  lemma CoversAny(m: Matcher, pattern: seq<string>, path: seq<string>)
    requires pattern != [] && pattern[0] == ANY
    ensures Covers(m, pattern, path) <==> exists i :: 0 <= i <= |path| && Covers(m, pattern[1..], path[i..])
  {
    if at :| Aligned(m, pattern, path, at) {
      RestAligns(m, pattern, path, at);
    }
    if i :| 0 <= i <= |path| && Covers(m, pattern[1..], path[i..]) {
      var at :| Aligned(m, pattern[1..], path[i..], at);
      ShiftAligns(m, pattern, path, i, at);
    }
  }

  lemma CoversPlain(m: Matcher, pattern: seq<string>, path: seq<string>)
    requires pattern != [] && pattern[0] != ANY
    ensures Covers(m, pattern, path) <==> path != [] && m(pattern[0], path[0]) == Some(true) && Covers(m, pattern[1..], path[1..])
  {
    if at :| Aligned(m, pattern, path, at) {
      RestAligns(m, pattern, path, at);
    }
    if path != [] && m(pattern[0], path[0]) == Some(true) && Covers(m, pattern[1..], path[1..]) {
      var at :| Aligned(m, pattern[1..], path[1..], at);
      ShiftAligns(m, pattern, path, 1, at);
    }
  }

  lemma CoversAllUnder(m: Matcher, path: seq<string>)
    ensures Covers(m, [ANY], path)
  {
    CoversAny(m, [ANY], path);
    CoversNothing(m, path[0..]);
    assert [ANY][1..] == [];
  }

  /**
   * Matches a pattern against a path or something above it: true exactly when
   * the pattern covers the path, unless a malformed segment is met first.
   */
  method MatchSegments(m: Matcher, pattern0: seq<string>, path0: seq<string>) returns (r: Option<bool>)
    ensures r.Some? ==> (r.value <==> Covers(m, pattern0, path0))
    ensures r.None? ==> Malformed(m, pattern0, path0)
    decreases |pattern0|
  {
    var pattern, path := pattern0, path0;
    while |pattern| > 0
      invariant Covers(m, pattern0, path0) <==> Covers(m, pattern, path)
      invariant |pattern| <= |pattern0|
      invariant forall p :: p in pattern ==> p in pattern0
      invariant forall s :: s in path ==> s in path0
      decreases |pattern|
    {
      if pattern[0] == ANY {
        var rest := pattern[1..];
        CoversAny(m, pattern, path);
        if |rest| == 0 {
          assert pattern == [ANY];
          CoversAllUnder(m, path);
          return Some(true);
        }
        var i := 0;
        while i <= |path|
          invariant 0 <= i <= |path| + 1
          invariant forall j :: 0 <= j < i ==> !Covers(m, rest, path[j..])
        {
          var ok := MatchSegments(m, rest, path[i..]);
          if ok.None? {
            var p, s :| p in rest && s in path[i..] && m(p, s) == None;
            assert p in pattern0 && s in path0;
            return None;
          }
          if ok.value {
            return ok;
          }
          i := i + 1;
        }
        return Some(false);
      }
      CoversPlain(m, pattern, path);
      if |path| == 0 {
        return Some(false);
      }
      var ok := m(pattern[0], path[0]);
      if ok.None? {
        assert pattern[0] in pattern0 && path[0] in path0;
        return None;
      }
      if !ok.value {
        return Some(false);
      }
      pattern, path := pattern[1..], path[1..];
    }
    CoversNothing(m, path);
    return Some(true);
  }

  // ------------------------------------------------------------- whole paths

  function Slashed(s: string): (r: string)
    ensures |r| == |s| && forall i :: 0 <= i < |s| ==> r[i] == if s[i] == '\\' then '/' else s[i]
  {
    seq(|s|, i requires 0 <= i < |s| => if s[i] == '\\' then '/' else s[i])
  }

  function TrimSlashes(s: string): string {
    if s != "" && s[0] == '/' then TrimSlashes(s[1..])
    else if s != "" && s[|s| - 1] == '/' then TrimSlashes(s[..|s| - 1])
    else s
  }

  predicate AllSlashes(s: string) {
    forall i :: 0 <= i < |s| ==> s[i] == '/'
  }

  lemma TrimOneSlash(s: string)
    ensures s != "" && s[0] == '/' ==> TrimSlashes(s) == TrimSlashes(s[1..])
    ensures s != "" && s[0] != '/' && s[|s| - 1] == '/' ==> TrimSlashes(s) == TrimSlashes(s[..|s| - 1])
    ensures s == "" || (s[0] != '/' && s[|s| - 1] != '/') ==> TrimSlashes(s) == s
  {
  }

  /** Trimming takes slashes off both ends, all of them, and nothing else. */
  lemma {:induction false} TrimSlashesShape(s: string) returns (pre: string, post: string)
    ensures s == pre + TrimSlashes(s) + post && AllSlashes(pre) && AllSlashes(post)
    ensures var t := TrimSlashes(s); t == "" || (t[0] != '/' && t[|t| - 1] != '/')
  {
    hide TrimSlashes;
    TrimOneSlash(s);
    pre, post := "", "";
    if s != "" && s[0] == '/' {
      pre, post := TrimSlashesShape(s[1..]);
      PutBack([s[0]], pre, TrimSlashes(s), post, []);
      pre := [s[0]] + pre;
    } else if s != "" && s[|s| - 1] == '/' {
      var n := |s| - 1;
      pre, post := TrimSlashesShape(s[..n]);
      PutBack([], pre, TrimSlashes(s), post, [s[n]]);
      post := post + [s[n]];
    }
  }

  lemma PutBack(a: string, pre: string, t: string, post: string, b: string)
    ensures a + (pre + t + post) + b == (a + pre) + t + (post + b)
  {
  }

  function Segments(s: string): seq<string> {
    Split(TrimSlashes(Slashed(s)), '/')
  }

  method MatchGlob(m: Matcher, pattern: string, path: string) returns (r: Option<bool>)
    ensures r.Some? ==> (r.value <==> Covers(m, Segments(pattern), Segments(path)))
    ensures r.None? ==> Malformed(m, Segments(pattern), Segments(path))
  {
    r := MatchSegments(m, Segments(pattern), Segments(path));
  }

  /** A pattern that covers a path covers everything under it. */
  lemma CoversBelow(m: Matcher, pattern: seq<string>, path: seq<string>, more: seq<string>)
    requires Covers(m, pattern, path)
    ensures Covers(m, pattern, path + more)
  {
    var at :| Aligned(m, pattern, path, at);
    forall i {:trigger pattern[i]} | 0 <= i < |pattern|
      ensures Stands(m, pattern[i], path + more, at[i], at[i + 1])
    {
      assert Stands(m, pattern[i], path, at[i], at[i + 1]);
    }
    assert Aligned(m, pattern, path + more, at);
  }
}
