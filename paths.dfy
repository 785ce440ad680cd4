/**
 * The parts of Python's `posixpath` that `save_file` and `open_file` rely
 * on: `join`, `abspath` (without `normpath`) and `dirname`.
 */
module Paths {

  /** `os.path.isabs`: the path starts with '/'. */
  predicate IsAbsolute(p: string) {
    p != [] && p[0] == '/'
  }

  predicate AllSlashes(s: string) {
    forall i :: 0 <= i < |s| ==> s[i] == '/'
  }

  predicate HasNoSlash(s: string) {
    forall i :: 0 <= i < |s| ==> s[i] != '/'
  }

  /**
   * `os.path.join(a, b)` for two components: an absolute `b` wins, otherwise
   * `b` is appended after a separating '/' unless `a` is empty or already
   * ends in one.
   */
  function JoinPath(a: string, b: string): (r: string)
    ensures IsAbsolute(a) ==> IsAbsolute(r)
    ensures |b| <= |r| && r[|r| - |b|..] == b
  {
    if IsAbsolute(b) then b
    else if a == [] || a[|a| - 1] == '/' then a + b
    else a + "/" + b
  }

  /**
   * `os.path.abspath(p)` relative to the working directory `cwd`; the
   * `normpath` step that folds "." and ".." away is not modelled.
   */
  function AbsPath(cwd: string, p: string): (r: string)
    ensures IsAbsolute(cwd) ==> IsAbsolute(r)
  {
    JoinPath(cwd, p)
  }

  /** Index of the last '/' in `p`, or -1 when there is none (`p.rfind('/')`). */
  function LastSlash(p: string): (i: int)
    ensures -1 <= i < |p|
    ensures 0 <= i ==> p[i] == '/'
    ensures forall j :: i < j < |p| ==> p[j] != '/'
  {
    if p == [] then -1
    else if p[|p| - 1] == '/' then |p| - 1
    else LastSlash(p[..|p| - 1])
  }

  /** `s.rstrip('/')`. */
  function RStripSlashes(s: string): (r: string)
    ensures r <= s
    ensures r == [] || r[|r| - 1] != '/'
    ensures forall i :: |r| <= i < |s| ==> s[i] == '/'
  {
    if s != [] && s[|s| - 1] == '/' then RStripSlashes(s[..|s| - 1]) else s
  }

  /**
   * `os.path.dirname(p)`: everything up to the last '/', with the trailing
   * slashes removed unless that part is made of slashes only.
   */
  function DirName(p: string): (d: string)
    ensures d <= p && |d| <= LastSlash(p) + 1
    ensures d == [] <==> HasNoSlash(p)
    ensures AllSlashes(d) || d[|d| - 1] != '/'
    ensures forall j :: |d| <= j <= LastSlash(p) ==> p[j] == '/'
    ensures AllSlashes(d) ==> |d| == LastSlash(p) + 1
  {
    var head := p[..LastSlash(p) + 1];
    if head != [] && !AllSlashes(head) then RStripSlashes(head) else head
  }

  /** An absolute path always has a directory part. */
  lemma {:induction false} AbsoluteHasDirName(p: string)
    requires IsAbsolute(p)
    ensures DirName(p) != []
  {
    assert p[0] == '/';
  }

  /**
   * A name without '/' joined onto a directory that `dirname` could have
   * produced has that directory as its own `dirname`.
   */
  lemma {:induction false} DirNameOfJoin(d: string, name: string)
    requires d != [] && (AllSlashes(d) || d[|d| - 1] != '/')
    requires name != [] && HasNoSlash(name)
    ensures DirName(JoinPath(d, name)) == d
  {
    var x := if d[|d| - 1] == '/' then d else d + "/";
    var s := JoinPath(d, name);
    assert s == x + name;
    assert s[|x| - 1] == '/';
    assert LastSlash(s) == |x| - 1;
    assert s[..|x|] == x;
    if !AllSlashes(d) {
      assert !AllSlashes(x);
      var r := RStripSlashes(x);
      assert r == x[..|r|];
      assert |r| == |d|;
    }
  }
}
