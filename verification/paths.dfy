// Slash-separated paths, as far as the snapshot rewrite looks at them.
module Paths {

  /** The directory in a VM's directory that it is restored from. */
  const RESTORE_DIR_NAME := "cloud-hypervisor-snapshot"

  predicate NoSlash(s: string) { '/' !in s }

  lemma OneMoreCharacter(s: string, n: nat, e: string)
    requires |s| == n + 1 && s[n] != '/' && NoSlash(e) && |e| <= n && s[..n][n - |e|..] == e
    requires |e| < n ==> s[..n][n - |e| - 1] == '/'
    ensures NoSlash(e + [s[n]]) && s[n - |e|..] == e + [s[n]] && (|e| < n ==> s[n - |e| - 1] == '/')
  {
    assert s[n - |e|..] == s[..n][n - |e|..] + [s[n]];
  }

  /** What follows the last slash; all of a path that has none. */
  function LastElement(s: string): (e: string)
    ensures NoSlash(e)
    ensures |e| <= |s| && s[|s| - |e|..] == e
    ensures |e| < |s| ==> s[|s| - |e| - 1] == '/'
    decreases |s|
  {
    if s == "" || s[|s| - 1] == '/' then ""
    else
      var n := |s| - 1;
      var e := LastElement(s[..n]);
      OneMoreCharacter(s, n, e);
      e + [s[n]]
  }

  /** Only one element can follow the last slash. */
  lemma LastElementUnique(s: string, e: string)
    requires NoSlash(e) && |e| <= |s| && s[|s| - |e|..] == e
    requires |e| < |s| ==> s[|s| - |e| - 1] == '/'
    ensures LastElement(s) == e
  {
  }

  predicate EndsWith(s: string, suffix: string) {
    |suffix| <= |s| && s[|s| - |suffix|..] == suffix
  }

  function TrimPrefix(s: string, prefix: string): string {
    if prefix <= s then s[|prefix|..] else s
  }

  function StripSlashes(s: string): (r: string)
    ensures r == "" || r[|r| - 1] != '/'
    decreases |s|
  {
    if s != "" && s[|s| - 1] == '/' then StripSlashes(s[..|s| - 1]) else s
  }

  /** filepath.Base. */
  function Base(path: string): (b: string)
    ensures b != ""
    ensures NoSlash(b) || b == "/"
  {
    if path == "" then "."
    else
      var e := LastElement(StripSlashes(path));
      if e == "" then "/" else e
  }

  /** A directory as filepath.Join and filepath.Clean leave it. */
  predicate CleanDir(d: string) {
    && d != ""
    && (d == "/" || d[|d| - 1] != '/')
    && forall i :: 0 <= i < |d| - 1 ==> !(d[i] == '/' && d[i + 1] == '/')
  }

  /** A name that filepath.Join keeps as it is. */
  predicate Ordinary(name: string) {
    name != "" && NoSlash(name) && name != "." && name != ".."
  }

  /** filepath.Join of a clean directory and an ordinary name. */
  function Join(dir: string, name: string): (p: string)
    requires CleanDir(dir) && Ordinary(name)
    ensures p != "" && p[|p| - 1] != '/'
  {
    if dir == "/" then "/" + name
    else if dir == "." then name
    else dir + "/" + name
  }

  lemma JoinIs(dir: string, name: string)
    requires CleanDir(dir) && Ordinary(name)
    ensures Join("/", name) == "/" + name && Join(".", name) == name
    ensures dir != "/" && dir != "." ==> Join(dir, name) == dir + "/" + name
  {
  }

  lemma LastOfJoin(dir: string, name: string)
    requires CleanDir(dir) && Ordinary(name)
    ensures LastElement(Join(dir, name)) == name
  {
    LastElementUnique(Join(dir, name), name);
  }

  lemma BaseOfName(name: string)
    requires Ordinary(name)
    ensures Base(name) == name
  {
    hide LastElement;
    LastElementUnique(name, name);
    assert name[|name| - 1] in name;
  }

  lemma BaseOfJoin(dir: string, name: string)
    requires CleanDir(dir) && Ordinary(name)
    ensures Base(Join(dir, name)) == name
  {
    LastOfJoin(dir, name);
  }

  lemma JoinIsClean(dir: string, name: string)
    requires CleanDir(dir) && Ordinary(name)
    ensures CleanDir(Join(dir, name))
  {
    var p := Join(dir, name);
    var at := |p| - |name|;
    assert forall i :: 0 <= i < |name| ==> name[i] in name;
    assert forall i :: at <= i < |p| ==> p[i] == name[i - at] && p[i] != '/';
    forall i | 0 <= i < |p| - 1 ensures !(p[i] == '/' && p[i + 1] == '/') {
      if i + 1 < at - 1 {
        assert p[i] == dir[i] && p[i + 1] == dir[i + 1];
      }
    }
  }

  /** A cleaned path has no two slashes in a row, so it never starts with a URL scheme. */
  lemma JoinHasNoScheme(dir: string, name: string)
    requires CleanDir(dir) && Ordinary(name)
    ensures !("file://" <= Join(dir, name))
  {
    var p := Join(dir, name);
    if 6 < |p| {
      assert !(p[5] == '/' && p[6] == '/') by {
        var at := |p| - |name|;
        assert forall i :: at <= i < |p| ==> p[i] == name[i - at];
        if 6 < at - 1 {
          assert p[5] == dir[5] && p[6] == dir[6];
        }
      }
    }
  }

  lemma DirHasNoScheme(dir: string)
    requires CleanDir(dir)
    ensures !("file://" <= dir)
  {
    if 6 < |dir| {
      assert !(dir[5] == '/' && dir[5 + 1] == '/');
    }
  }
}
