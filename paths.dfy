/**
 * POSIX path handling as the Python scripts use it: `os.path.join` of
 * two components and the tail component of `os.path.split`.
 */
module Paths {

  /** `os.path.join(a, b)`: an absolute `b` replaces `a`; otherwise one '/' separates them. */
  function Join(a: string, b: string): string
  {
    if |b| > 0 && b[0] == '/' then b else DirPrefix(a) + b
  }

  /** What `Join` puts before a relative component: `a`, with a '/' added unless it is empty or ends in one. */
  function DirPrefix(a: string): (r: string)
    ensures r == [] || r[|r| - 1] == '/'
  {
    if a == [] || a[|a| - 1] == '/' then a else a + "/"
  }

  /**
   * `os.path.split(p)[1]`: everything after the last '/'. The result holds
   * no '/', ends `p`, and is all of `p` or follows a '/'.
   */
  function Basename(p: string): (r: string)
    ensures '/' !in r
    ensures |r| <= |p| && r == p[|p| - |r|..]
    ensures |r| < |p| ==> p[|p| - |r| - 1] == '/'
  {
    if p == [] then []
    else if p[|p| - 1] == '/' then []
    else Basename(p[..|p| - 1]) + [p[|p| - 1]]
  }

  /** The basename of a name placed after a directory prefix (empty or ending in '/') is the name. */
  lemma {:induction false} BasenameAfterSlash(d: string, name: string)
    requires d == [] || d[|d| - 1] == '/'
    requires '/' !in name
    ensures Basename(d + name) == name
  {
    if name == [] {
      assert d + name == d;
    } else {
      var p := d + name;
      assert p[..|p| - 1] == d + name[..|name| - 1];
      BasenameAfterSlash(d, name[..|name| - 1]);
    }
  }

  /** Joining a slash-free name onto any directory keeps the name as the basename. */
  lemma BasenameOfJoin(dir: string, name: string)
    requires '/' !in name
    ensures Basename(Join(dir, name)) == name
  {
    BasenameAfterSlash(DirPrefix(dir), name);
  }

  /** The basename of a basename is itself. */
  lemma BasenameIdempotent(p: string)
    ensures Basename(Basename(p)) == Basename(p)
  {
    BasenameAfterSlash([], Basename(p));
    assert [] + Basename(p) == Basename(p);
  }
}
