/**
 * The path operations the pipeline uses on names and directory strings:
 * `Path(d) / n` and `os.path.join`, `Path.name`'s `suffix` and `stem`,
 * `os.path.splitext`, `os.path.split` and `os.path.abspath`.
 */
module Paths {
  import opened Strings

  /** `Path(dir) / name`, and `os.path.join(dir, name)` for a relative name. */
  function PathJoin(dir: string, name: string): (p: string)
    ensures EndsWith(p, "/" + name)
  {
    dir + "/" + name
  }

  /** `Path.suffix`: the final `.ext` of a name, or "" when there is none. */
  function Suffix(name: string): string {
    var i := LastIndexOf(name, '.');
    if 0 < i < |name| - 1 then name[i..] else ""
  }

  /** `Path.stem`: the name without its final suffix. */
  function Stem(name: string): (r: string)
    ensures r + Suffix(name) == name
  {
    var i := LastIndexOf(name, '.');
    if 0 < i < |name| - 1 then
      assert name[..i] + name[i..] == name;
      name[..i]
    else name
  }

  lemma {:induction false} LastIndexOfAfter(s: string, c: char, t: string)
    requires c !in t
    ensures LastIndexOf(s + [c] + t, c) == |s|
  {
    var u := s + [c] + t;
    assert u[|s|] == c;
    assert forall k :: |s| < k < |u| ==> u[k] != c by {
      forall k | |s| < k < |u| ensures u[k] != c {
        assert u[k] == t[k - |s| - 1];
      }
    }
    var i := LastIndexOf(u, c);
    LastIndexOfIsLast(u, c);
    assert i >= 0 && u[i] == c;
    assert i <= |s|;
  }

  /** A name `base.ext` with a dot-free `ext` has stem `base` and suffix `.ext`. */
  lemma StemSuffix(base: string, ext: string)
    requires base != [] && ext != [] && '.' !in ext
    ensures Stem(base + "." + ext) == base
    ensures Suffix(base + "." + ext) == "." + ext
  {
    LastIndexOfAfter(base, '.', ext);
    assert base + "." + ext == base + ['.'] + ext;
  }

  /** Every character of `s` is a dot. */
  predicate AllDots(s: string) {
    forall k :: 0 <= k < |s| ==> s[k] == '.'
  }

  /**
   * `os.path.splitext(name)[0]` for a name without '/': the part before the
   * last dot, unless only dots precede it.
   */
  function SplitExtRoot(name: string): (r: string)
    ensures StartsWith(name, r)
  {
    var i := LastIndexOf(name, '.');
    if i > 0 && !AllDots(name[..i]) then name[..i] else name
  }

  /** `os.path.split(p)[1]`: the text after the last '/'. */
  function Tail(p: string): (r: string)
    ensures '/' !in r
    ensures EndsWith(p, r)
  {
    LastIndexOfIsLast(p, '/');
    p[LastIndexOf(p, '/') + 1..]
  }

  /** The last component of `root/name` is `name` when `name` has no '/'. */
  lemma TailOfJoin(root: string, name: string)
    requires '/' !in name
    ensures Tail(PathJoin(root, name)) == name
  {
    LastIndexOfAfter(root, '/', name);
    assert PathJoin(root, name) == root + ['/'] + name;
  }

  /** `os.path.abspath(p)` relative to the working directory `cwd`. */
  function Abspath(p: string, cwd: string): (r: string)
    ensures StartsWith(p, "/") ==> r == p
  {
    if StartsWith(p, "/") then p else PathJoin(cwd, p)
  }
}
