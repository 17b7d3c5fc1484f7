/** Object keys as paths of a filesystem target, and which keys a listing from a prefix's directory shows. */
module FileKeys {
  import opened Base
  import opened Text

  /** A path below the target's base directory, one segment at a time. */
  type Path = seq<string>

  const TMP_PREFIX := ".pbtmp-"
  const PROBE_PREFIX := ".proxback-probe-"

  predicate HasPrefix(s: string, p: string) {
    |p| <= |s| && s[..|p|] == p
  }

  predicate GoodSegment(p: string) {
    p != "" && p != "." && p != ".." && !HasPrefix(p, TMP_PREFIX)
  }

  predicate PlainText(s: string) {
    '\\' !in s && ':' !in s
  }

  /** The path of a key, if the key is one a target accepts. */
  function RelPath(key: string): Option<Path> {
    if key == "" || !PlainText(key) then None
    else if forall i :: 0 <= i < |Split(key, '/')| ==> GoodSegment(Split(key, '/')[i]) then Some(Split(key, '/'))
    else None
  }

  function KeyOf(p: Path): string {
    Join(p, '/')
  }

  predicate GoodPath(p: Path) {
    p != [] && forall i :: 0 <= i < |p| ==> GoodSegment(p[i]) && PlainText(p[i]) && '/' !in p[i]
  }

  /** The loop that checks a key's segments; an empty listing prefix is the base directory itself. */
  method CheckKey(key: string, isPrefix: bool) returns (p: Option<Path>)
    ensures p == if key == "" && isPrefix then Some([]) else RelPath(key)
  {
    if key == "" {
      return if isPrefix then Some([]) else None;
    }
    if '\\' in key || ':' in key {
      return None;
    }
    var parts := Split(key, '/');
    for i := 0 to |parts|
      invariant forall j :: 0 <= j < i ==> GoodSegment(parts[j])
    {
      if parts[i] == "" || parts[i] == "." || parts[i] == ".." || HasPrefix(parts[i], TMP_PREFIX) {
        return None;
      }
    }
    return Some(parts);
  }

  // ------------------------------------------------------------ keys and paths

  lemma {:induction false} JoinMembers(parts: seq<string>, c: char, x: char)
    requires x != c
    ensures x in Join(parts, c) <==> exists i :: 0 <= i < |parts| && x in parts[i]
    decreases |parts|
  {
    if |parts| > 1 {
      JoinMembers(parts[1..], c, x);
      assert parts == [parts[0]] + parts[1..];
      if i :| 0 <= i < |parts| && x in parts[i] {
        assert i > 0 ==> parts[i] == parts[1..][i - 1];
      }
      if x in Join(parts[1..], c) {
        var i :| 0 <= i < |parts[1..]| && x in parts[1..][i];
        assert parts[i + 1] == parts[1..][i];
      }
    }
  }

  /** A key's path spells the key, and every good path is the path of the key it spells. */
  lemma KeysArePaths(key: string, p: Path)
    ensures RelPath(key) == Some(p) <==> GoodPath(p) && KeyOf(p) == key
  {
    if RelPath(key) == Some(p) {
      JoinSplit(key, '/');
      JoinMembers(p, '/', '\\');
      JoinMembers(p, '/', ':');
    }
    if GoodPath(p) && KeyOf(p) == key {
      SplitJoin(p, '/');
      JoinMembers(p, '/', '\\');
      JoinMembers(p, '/', ':');
      assert key != "";
    }
  }

  /** Different keys have different paths. */
  lemma PathsAreInjective(a: string, b: string)
    requires RelPath(a).Some? && RelPath(a) == RelPath(b)
    ensures a == b
  {
    KeysArePaths(a, RelPath(a).value);
    KeysArePaths(b, RelPath(b).value);
  }

  // ------------------------------------------------------------------ listing

  /** The index of the last slash, or -1. */
  function LastSlash(s: string): (i: int)
    ensures -1 <= i < |s| && (i >= 0 ==> s[i] == '/') && forall j :: i < j < |s| ==> s[j] != '/'
  {
    if s == "" then -1 else if s[|s| - 1] == '/' then |s| - 1 else
      assert forall j :: 0 <= j < |s| - 1 ==> s[..|s| - 1][j] == s[j];
      LastSlash(s[..|s| - 1])
  }

  /** The directory part of a listing prefix. */
  function PrefixDir(prefix: string): string {
    var i := LastSlash(prefix);
    if i >= 0 then prefix[..i] else ""
  }

  /** Where the walk of a prefix starts. */
  function WalkRoot(prefix: string): Option<Path> {
    if PrefixDir(prefix) == "" then Some([]) else RelPath(PrefixDir(prefix))
  }

  predicate Under(p: Path, root: Path) {
    |root| <= |p| && p[..|root|] == root
  }

  predicate Hidden(p: Path) {
    p != [] && (HasPrefix(p[|p| - 1], TMP_PREFIX) || HasPrefix(p[|p| - 1], PROBE_PREFIX))
  }

  /** A file the walk of a prefix, started at its directory, reports. */
  predicate Listed(prefix: string, root: Path, p: Path) {
    Under(p, root) && !Hidden(p) && HasPrefix(KeyOf(p), prefix)
  }

  /** The loop over the files the walk meets. */
  method WalkFiles(prefix: string, files: set<Path>) returns (listed: Option<set<string>>)
    ensures listed.None? <==> WalkRoot(prefix).None?
    ensures listed.Some? ==> listed.value == set p | p in files && Listed(prefix, WalkRoot(prefix).value, p) :: KeyOf(p)
  {
    var dir := PrefixDir(prefix);
    var root: Path := [];
    if dir != "" {
      var rel := CheckKey(dir, true);
      if rel.None? {
        return None;
      }
      root := rel.value;
    }
    var rest := set p | p in files && Under(p, root);
    ghost var seen: set<Path> := {};
    var keys: set<string> := {};
    while rest != {}
      invariant rest + seen == set p | p in files && Under(p, root)
      invariant keys == set p | p in seen && Listed(prefix, root, p) :: KeyOf(p)
      decreases rest
    {
      var p :| p in rest;
      rest := rest - {p};
      seen := seen + {p};
      if !Hidden(p) && HasPrefix(KeyOf(p), prefix) {
        keys := keys + {KeyOf(p)};
      }
    }
    assert seen == set p | p in files && Under(p, root);
    return Some(keys);
  }

  /** A key under a directory's text is under the directory. */
  lemma {:induction false} DirectoryText(p: Path, root: Path)
    requires GoodPath(p) && GoodPath(root) && HasPrefix(KeyOf(p), KeyOf(root) + "/")
    ensures Under(p, root) && |p| > |root|
    decreases |root|
  {
    var k := KeyOf(p);
    var head := root[0];
    var f := Find(k, '/', 0);
    FirstSegment(root);
    assert HasPrefix(k, head + "/") by {
      var t := KeyOf(root) + "/";
      assert k[..|head| + 1] == t[..|head| + 1];
    }
    assert k[|head|] == '/' && forall j :: 0 <= j < |head| ==> k[j] == head[j];
    assert p[0] == head && |p| > 1 by {
      FirstSegmentOf(p);
    }
    if |root| > 1 {
      var p', root' := p[1..], root[1..];
      assert KeyOf(p) == head + ['/'] + KeyOf(p');
      assert KeyOf(root) + "/" == head + ['/'] + (KeyOf(root') + "/");
      assert HasPrefix(KeyOf(p'), KeyOf(root') + "/") by {
        var a, b := KeyOf(p'), KeyOf(root') + "/";
        assert k[|head| + 1..] == a && (KeyOf(root) + "/")[|head| + 1..] == b;
        assert k[..|head| + 1 + |b|] == KeyOf(root) + "/";
        assert a[..|b|] == k[..|head| + 1 + |b|][|head| + 1..];
      }
      DirectoryText(p', root');
      assert p == [head] + p' && root == [head] + root';
    }
  }

  /**
   * Walking from the prefix's directory shows exactly the keys with the prefix,
   * but for those whose last segment has the name of a probe file: such a key is
   * accepted and never listed.
   */
  lemma WalkListsExactly(prefix: string, key: string)
    requires RelPath(key).Some? && WalkRoot(prefix).Some?
    ensures var p := RelPath(key).value;
            p != [] && (Listed(prefix, WalkRoot(prefix).value, p) <==> HasPrefix(key, prefix) && !HasPrefix(p[|p| - 1], PROBE_PREFIX))
  {
    var p, root := RelPath(key).value, WalkRoot(prefix).value;
    KeysArePaths(key, p);
    var dir := PrefixDir(prefix);
    if HasPrefix(key, prefix) && dir != "" {
      KeysArePaths(dir, root);
      var n := LastSlash(prefix);
      assert prefix[..n + 1] == dir + "/";
      assert key[..n + 1] == prefix[..n + 1];
      DirectoryText(p, root);
    }
  }

  lemma FirstSegment(root: Path)
    requires GoodPath(root)
    ensures HasPrefix(KeyOf(root) + "/", root[0] + "/")
  {
    if |root| == 1 {
    } else {
      assert KeyOf(root) == root[0] + ['/'] + KeyOf(root[1..]);
      assert (KeyOf(root) + "/")[..|root[0]| + 1] == root[0] + "/";
    }
  }

  lemma FirstSegmentOf(p: Path)
    requires GoodPath(p)
    ensures var k := KeyOf(p);
            && |p[0]| == Find(k, '/', 0) && k[..|p[0]|] == p[0]
            && (|p| > 1 <==> Find(k, '/', 0) < |k|)
  {
    var k := KeyOf(p);
    if |p| == 1 {
      assert Find(k, '/', 0) == |k|;
    } else {
      assert k == p[0] + ['/'] + KeyOf(p[1..]);
      assert k[|p[0]|] == '/' && forall j :: 0 <= j < |p[0]| ==> k[j] == p[0][j];
    }
  }
}
