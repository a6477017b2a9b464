/** The parts of Go's `path/filepath` package the core uses, for
    '/'-separated paths. */
module FilePath {
  import opened Text

  /** Index of the last '/' in `p`, or -1 when there is none. */
  function LastSlash(p: string): (i: int)
    ensures -1 <= i < |p|
  {
    if p == [] then -1
    else if p[|p| - 1] == '/' then |p| - 1
    else LastSlash(p[..|p| - 1])
  }

  lemma {:induction false} LastSlashIsLast(p: string)
    ensures LastSlash(p) >= 0 ==> p[LastSlash(p)] == '/'
    ensures forall j :: LastSlash(p) < j < |p| ==> p[j] != '/'
    decreases |p|
  {
    if p != [] && p[|p| - 1] != '/' {
      LastSlashIsLast(p[..|p| - 1]);
    }
  }

  /** Cutting `p` after its last '/' leaves the last '/' where it was. */
  lemma {:induction false} LastSlashOfPrefix(p: string, m: nat)
    requires LastSlash(p) < m <= |p|
    ensures LastSlash(p[..m]) == LastSlash(p)
    decreases |p|
  {
    if m < |p| {
      assert p[..|p| - 1][..m] == p[..m];
      LastSlashOfPrefix(p[..|p| - 1], m);
    } else {
      assert p[..m] == p;
    }
  }

  /** A '/' followed by a slash-free tail: the '/' is the last one. */
  lemma LastSlashOfAppend(d: string, f: string)
    requires d != [] && d[|d| - 1] == '/'
    requires '/' !in f
    ensures LastSlash(d + f) == |d| - 1
  {
    var p := d + f;
    LastSlashIsLast(p);
    assert forall j :: |d| <= j < |p| ==> p[j] == f[j - |d|];
    assert p[|d| - 1] == '/';
  }

  /** Index of the last '.' after the last '/' of `p`, or -1 when the final
      element of `p` has no '.'. */
  function LastDot(p: string): (i: int)
    ensures i == -1 || LastSlash(p) < i < |p|
  {
    if p == [] || p[|p| - 1] == '/' then -1
    else if p[|p| - 1] == '.' then |p| - 1
    else LastDot(p[..|p| - 1])
  }

  lemma {:induction false} LastDotIsLast(p: string)
    ensures LastDot(p) >= 0 ==> p[LastDot(p)] == '.'
    ensures forall j :: LastSlash(p) < j < |p| && LastDot(p) < j ==> p[j] != '.'
    decreases |p|
  {
    if p != [] && p[|p| - 1] != '/' && p[|p| - 1] != '.' {
      LastDotIsLast(p[..|p| - 1]);
    }
  }

  /** A '.' followed by a tail with no '.' and no '/': the '.' is the last
      one of the final element. */
  lemma {:induction false} LastDotOfAppend(a: string, b: string)
    requires a != [] && a[|a| - 1] == '.'
    requires '.' !in b && '/' !in b
    ensures LastDot(a + b) == |a| - 1
    decreases |b|
  {
    if b != [] {
      var b' := b[..|b| - 1];
      assert (a + b)[..|a + b| - 1] == a + b';
      LastDotOfAppend(a, b');
    } else {
      assert a + b == a;
    }
  }

  /** `filepath.Ext`: the suffix of `p` that starts at the final '.' of its
      final element, or "" when that element has no '.'. */
  function Ext(p: string): string
  {
    var i := LastDot(p);
    if i < 0 then [] else p[i..]
  }

  /** `Ext(p)` is a '/'-free suffix of `p` that starts with its final '.',
      and is empty exactly when the final element has no '.'. */
  lemma ExtIsFinalDotSuffix(p: string)
    ensures HasSuffix(p, Ext(p))
    ensures Ext(p) == [] <==> LastDot(p) == -1
    ensures Ext(p) != [] ==> LastDot(p) == |p| - |Ext(p)| && Ext(p)[0] == '.'
    ensures '/' !in Ext(p)
  {
    var i := LastDot(p);
    LastDotIsLast(p);
    LastSlashIsLast(p);
    if i >= 0 {
      forall k | 0 <= k < |p| - i
        ensures p[i..][k] != '/'
      {
        assert p[i..][k] == p[i + k];
      }
    }
  }

  lemma NoSlashAfterLast(p: string)
    ensures '/' !in p[LastSlash(p) + 1..]
  {
    var i := LastSlash(p);
    LastSlashIsLast(p);
    var file := p[i + 1..];
    forall k | 0 <= k < |file|
      ensures file[k] != '/'
    {
      assert file[k] == p[i + 1 + k];
    }
  }

  /** `filepath.Split`: `dir` is everything up to and including the last '/',
      `file` is the rest. */
  function Split(p: string): (string, string)
  {
    var i := LastSlash(p);
    (p[..i + 1], p[i + 1..])
  }

  /** The two halves of `Split(p)` make up `p`; the file half has no '/' and
      the directory half is empty or ends with one. */
  lemma SplitParts(p: string)
    ensures Split(p).0 + Split(p).1 == p
    ensures '/' !in Split(p).1
    ensures Split(p).0 == [] || Split(p).0[|Split(p).0| - 1] == '/'
  {
    var i := LastSlash(p);
    var (dir, file) := (p[..i + 1], p[i + 1..]);
    assert Split(p) == (dir, file);
    LastSlashIsLast(p);
    NoSlashAfterLast(p);
    assert dir + file == p;
  }

  /** Removes every trailing '/'. */
  function StripTrailingSlashes(p: string): (r: string)
    ensures r == [] || r[|r| - 1] != '/'
    ensures HasPrefix(p, r)
  {
    if p != [] && p[|p| - 1] == '/' then StripTrailingSlashes(p[..|p| - 1]) else p
  }

  /** `filepath.Base`: the last element of `p` once trailing slashes are
      removed; "." for the empty path and "/" for a path of slashes only. */
  function Base(p: string): (r: string)
    ensures r != []
    ensures '/' in r ==> r == "/"
  {
    if p == [] then "."
    else
      var q := StripTrailingSlashes(p);
      if q == [] then "/"
      else
        assert LastSlash(q) < |q| - 1;
        NoSlashAfterLast(q);
        Split(q).1
  }

  /** `filepath.Join(dir, file)` where the only cleaning the result needs is
      collapsing the slash that `dir` may already end with. */
  function Join(dir: string, file: string): (r: string)
  {
    if dir == [] then file
    else if dir[|dir| - 1] == '/' then dir + file
    else dir + "/" + file
  }
}
