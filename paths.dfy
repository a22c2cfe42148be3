/**
 * The POSIX path operations (`os.path` on Linux) that the report builder
 * applies to path strings: `join` of two parts, `basename`, `splitext`, and
 * `relpath` for a path that lies under the start directory.
 */
module Paths {
  import opened Strings

  /** `os.path.join(a, b)`: an absolute `b` replaces `a`; otherwise one `/` separates them. */
  function Join(a: string, b: string): string
  {
    if StartsWith(b, "/") then b
    else if a == "" || EndsWith(a, "/") then a + b
    else a + "/" + b
  }

  /** Index of the last `c` in `s` (Python's `s.rfind(c)`), or -1. */
  function LastIndexOf(s: string, c: char): (r: int)
    ensures -1 <= r < |s|
    ensures r >= 0 ==> s[r] == c
    ensures forall k :: r < k < |s| ==> s[k] != c
  {
    if s == [] then -1
    else if s[|s| - 1] == c then |s| - 1
    else LastIndexOf(s[..|s| - 1], c)
  }

  /** Characters appended after the last `c` do not move it. */
  lemma {:induction false} LastIndexOfAppend(x: string, y: string, c: char)
    requires c !in y
    ensures LastIndexOf(x + y, c) == LastIndexOf(x, c)
    decreases |y|
  {
    if y != [] {
      var y' := y[..|y| - 1];
      assert (x + y)[..|x + y| - 1] == x + y';
      LastIndexOfAppend(x, y', c);
    } else {
      assert x + y == x;
    }
  }

  /** `os.path.basename(p)`: the part after the last `/`. */
  function Basename(p: string): (r: string)
    ensures '/' !in r
    ensures EndsWith(p, r)
  {
    p[LastIndexOf(p, '/') + 1..]
  }

  /** The basename is the whole path or is preceded by a `/`. */
  lemma {:induction false} BasenameAfterSlash(p: string)
    ensures Basename(p) == p || p[|p| - |Basename(p)| - 1] == '/'
  {
  }

  /** Joining a directory and a name without `/` and taking the basename gives the name back. */
  lemma {:induction false} BasenameOfJoin(dir: string, name: string)
    requires '/' !in name
    ensures Basename(Join(dir, name)) == name
  {
    if dir == "" || EndsWith(dir, "/") {
      LastIndexOfAppend(dir, name, '/');
      if dir != "" {
        assert dir[|dir| - 1] == '/';
      }
    } else {
      LastIndexOfAppend(dir + "/", name, '/');
      assert dir + "/" + name == (dir + "/") + name;
    }
  }

  /**
   * Where `os.path.splitext(p)` cuts `p`: at the last `.`, provided that dot
   * lies after the last `/` and some character other than `.` precedes it
   * within the last component (so `.env` has no extension); otherwise at the
   * end.
   */
  function ExtensionStart(p: string): (e: nat)
    ensures e <= |p|
    ensures e < |p| ==> p[e] == '.' && forall k :: e < k < |p| ==> p[k] != '.' && p[k] != '/'
  {
    var sep := LastIndexOf(p, '/');
    var dot := LastIndexOf(p, '.');
    if dot > sep && exists k :: sep < k < dot && p[k] != '.' then dot else |p|
  }

  /** `os.path.splitext(p)`: the root and the extension, which starts with `.` or is empty. */
  function SplitExt(p: string): (r: (string, string))
    ensures r.0 + r.1 == p
    ensures r.1 == "" || (r.1[0] == '.' && forall k :: 1 <= k < |r.1| ==> r.1[k] != '.' && r.1[k] != '/')
  {
    var e := ExtensionStart(p);
    assert p[..e] + p[e..] == p;
    (p[..e], p[e..])
  }

  /** The extension of a name with a non-dot character before its last dot starts at that dot. */
  lemma {:induction false} SplitExtFinds(p: string, dot: nat)
    requires dot < |p| && p[dot] == '.'
    requires forall k :: dot < k < |p| ==> p[k] != '.' && p[k] != '/'
    requires exists k :: 0 <= k < dot && p[k] != '.' && p[k] != '/' && forall m :: k < m < dot ==> p[m] != '/'
    ensures SplitExt(p).1 == p[dot..]
  {
    var k :| 0 <= k < dot && p[k] != '.' && p[k] != '/' && forall m :: k < m < dot ==> p[m] != '/';
    assert LastIndexOf(p, '.') == dot;
    assert LastIndexOf(p, '/') < k;
  }

  /**
   * A path has an extension exactly when its last component holds a `.`
   * after some other character; the extension then starts at the last `.`.
   * In particular a component made of leading dots and then a name, such as
   * `.env`, has none.
   */
  lemma {:induction false} SplitExtHasExtension(p: string)
    ensures SplitExt(p).1 != "" <==>
            exists i, j :: 0 <= i < j < |p| && p[i] != '.' && p[j] == '.' && forall m :: i <= m < |p| ==> p[m] != '/'
    ensures SplitExt(p).1 != "" ==> SplitExt(p).1 == p[LastIndexOf(p, '.')..]
  {
    var sep := LastIndexOf(p, '/');
    var dot := LastIndexOf(p, '.');
    if exists i, j :: 0 <= i < j < |p| && p[i] != '.' && p[j] == '.' && forall m :: i <= m < |p| ==> p[m] != '/' {
      var i, j :| 0 <= i < j < |p| && p[i] != '.' && p[j] == '.' && forall m :: i <= m < |p| ==> p[m] != '/';
      assert dot >= j;
      assert sep < i;
      assert sep < i < dot && p[i] != '.';
    }
    if ExtensionStart(p) < |p| {
      var k :| sep < k < dot && p[k] != '.';
      assert forall m :: k <= m < |p| ==> p[m] != '/';
    }
  }

  /** Lower-casing ASCII letters keeps every `/` and `.` in place. */
  lemma {:induction false} LastIndexOfLower(p: string, c: char)
    requires c == '/' || c == '.'
    ensures LastIndexOf(AsciiLower(p), c) == LastIndexOf(p, c)
    decreases |p|
  {
    if p != [] {
      var p' := p[..|p| - 1];
      assert AsciiLower(p)[..|p| - 1] == AsciiLower(p');
      LastIndexOfLower(p', c);
    }
  }

  /** The extension of the lower-cased path is the lower-cased extension. */
  lemma {:induction false} SplitExtLower(p: string)
    ensures SplitExt(AsciiLower(p)).1 == AsciiLower(SplitExt(p).1)
  {
    ExtensionStartLower(p);
    var e := ExtensionStart(p);
    assert AsciiLower(p[e..]) == AsciiLower(p)[e..];
  }

  /** Lower-casing does not move the cut. */
  lemma {:induction false} ExtensionStartLower(p: string)
    ensures ExtensionStart(AsciiLower(p)) == ExtensionStart(p)
  {
    LastIndexOfLower(p, '/');
    LastIndexOfLower(p, '.');
    var lp := AsciiLower(p);
    var sep := LastIndexOf(p, '/');
    var dot := LastIndexOf(p, '.');
    assert (exists k :: sep < k < dot && p[k] != '.') <==> (exists k :: sep < k < dot && lp[k] != '.') by {
      assert forall k :: 0 <= k < |p| ==> (lp[k] != '.' <==> p[k] != '.');
    }
  }

  /**
   * `os.path.relpath(p, start)` for a path that lies under `start`: what
   * follows `start` and its separating `/`. A path elsewhere is returned as it
   * is; the scan never produces one.
   */
  function RelPath(p: string, start: string): (r: string)
    ensures EndsWith(p, r)
  {
    if EndsWith(start, "/") && StartsWith(p, start) then p[|start|..]
    else if StartsWith(p, start + "/") then p[|start| + 1..]
    else p
  }

  /** A relative path joined onto the start directory is recovered by `relpath`. */
  lemma {:induction false} RelPathOfJoin(start: string, rel: string)
    requires !StartsWith(rel, "/")
    ensures RelPath(Join(start, rel), start) == rel
  {
    if start == "" {
    } else if EndsWith(start, "/") {
      assert (start + rel)[..|start|] == start;
    } else {
      assert (start + "/" + rel)[..|start + "/"|] == start + "/";
    }
  }
}
