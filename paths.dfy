/** POSIX path helpers used by the image processor: `os.path.basename` and
    two-argument `os.path.join`, on '/'-separated strings. */
module Paths {

  const Sep: char := '/'

  /** Where the base name of `p` starts: one past its last separator, or 0
      when `p` has none. */
  function BaseStart(p: string): (k: nat)
    ensures k <= |p|
    ensures k > 0 ==> p[k - 1] == Sep
    ensures forall i :: k <= i < |p| ==> p[i] != Sep
  {
    if |p| == 0 then 0
    else if p[|p| - 1] == Sep then |p|
    else BaseStart(p[..|p| - 1])
  }

  /** `os.path.basename`: everything after the last separator. */
  function Basename(p: string): (b: string)
    ensures Sep !in b
    ensures |b| <= |p| && p == p[..|p| - |b|] + b
    ensures |b| < |p| ==> p[|p| - |b| - 1] == Sep
  {
    var k := BaseStart(p);
    assert p == p[..k] + p[k..];
    p[k..]
  }

  /** Two-argument `os.path.join`: an absolute second part replaces the first;
      otherwise a separator is inserted unless the first part is empty or
      already ends with one. */
  function Join(a: string, b: string): string
  {
    if |b| > 0 && b[0] == Sep then b
    else if a == [] || a[|a| - 1] == Sep then a + b
    else a + [Sep] + b
  }

  /** The base name of a path ending in a separator followed by a
      separator-free part is exactly that part. */
  lemma {:induction false} BaseStartAfterSep(q: string, b: string)
    requires q == [] || q[|q| - 1] == Sep
    requires Sep !in b
    ensures BaseStart(q + b) == |q|
  {
    if b == [] {
      assert q + b == q;
    } else {
      var p := q + b;
      assert p[|p| - 1] == b[|b| - 1];
      assert p[..|p| - 1] == q + b[..|b| - 1];
      BaseStartAfterSep(q, b[..|b| - 1]);
    }
  }

  /** Joining a separator-free name onto any directory keeps that name as the
      base name of the result. */
  lemma BasenameOfJoin(dir: string, name: string)
    requires Sep !in name
    ensures Basename(Join(dir, name)) == name
  {
    if |name| > 0 && name[0] == Sep {
      assert false;
    } else if dir == [] || dir[|dir| - 1] == Sep {
      BaseStartAfterSep(dir, name);
      assert (dir + name)[|dir|..] == name;
    } else {
      var q := dir + [Sep];
      assert dir + [Sep] + name == q + name;
      BaseStartAfterSep(q, name);
      assert (q + name)[|q|..] == name;
    }
  }

  /** Different separator-free names joined onto the same directory give
      different paths. */
  lemma JoinInjective(dir: string, n1: string, n2: string)
    requires Sep !in n1 && Sep !in n2
    requires Join(dir, n1) == Join(dir, n2)
    ensures n1 == n2
  {
    BasenameOfJoin(dir, n1);
    BasenameOfJoin(dir, n2);
  }
}
