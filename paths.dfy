/**
 * POSIX path handling as `os.path.join` and `os.path.abspath` perform it,
 * with a path resolved to its list of components.
 */
module Paths {
  import opened Text

  /** The `/`-separated parts of a path, empty parts included (`"/a//b"` gives `["", "a", "", "b"]`). */
  function Split(p: string): (r: seq<string>)
    ensures |r| >= 1
    ensures forall i :: 0 <= i < |r| ==> '/' !in r[i]
  {
    if p == [] then [""]
    else if p[0] == '/' then [""] + Split(p[1..])
    else var rest := Split(p[1..]); [[p[0]] + rest[0]] + rest[1..]
  }

  /** A component that names a directory entry: not empty, not `.` or `..`, no separator. */
  predicate IsProper(c: string) {
    c != "" && c != "." && c != ".." && '/' !in c
  }

  /**
   * `os.path.join(a, b)` for two parts. An absolute `b` discards `a`;
   * otherwise the result is `a` followed by `b`, with a separator added
   * between them exactly when `a` is non-empty and does not already end
   * with one.
   */
  function PathJoin(a: string, b: string): (r: string)
    ensures StartsWith(b, "/") ==> r == b
    ensures !StartsWith(b, "/") ==>
      StartsWith(r, a) && |a| + |b| <= |r| <= |a| + |b| + 1 && r[|r| - |b|..] == b
    ensures !StartsWith(b, "/") && a != [] && a[|a| - 1] != '/' ==>
      |r| == |a| + |b| + 1 && r[|a|] == '/'
    ensures !StartsWith(b, "/") && (a == [] || a[|a| - 1] == '/') ==> r == a + b
  {
    if StartsWith(b, "/") then b
    else if a == [] || a[|a| - 1] == '/' then a + b
    else a + "/" + b
  }

  /**
   * One step of `normpath` on an absolute path: empty parts and `.` are
   * dropped, `..` goes up one level (and stays at the root), anything else
   * goes down.
   */
  function Step(at: seq<string>, c: string): seq<string> {
    if c == "" || c == "." then at
    else if c == ".." then (if at == [] then [] else at[..|at| - 1])
    else at + [c]
  }

  /** `normpath` over the components `comps`, starting at `at`. */
  function Normalise(at: seq<string>, comps: seq<string>): seq<string>
    decreases |comps|
  {
    if comps == [] then at else Normalise(Step(at, comps[0]), comps[1..])
  }

  /**
   * The components of `os.path.abspath(p)` when the working directory has
   * components `cwd`: a relative path is resolved from `cwd`, an absolute
   * one from the root.
   */
  function Resolve(cwd: seq<string>, p: string): seq<string> {
    Normalise(if StartsWith(p, "/") then [] else cwd, Split(p))
  }

  /** The text of a non-empty component list: `/` before every component. */
  function Joined(comps: seq<string>): (r: string)
    ensures comps != [] ==> |r| > 0 && r[0] == '/'
  {
    if comps == [] then "" else Joined(comps[..|comps| - 1]) + "/" + comps[|comps| - 1]
  }

  /** The absolute path with these components; the root is `/`. */
  function Render(comps: seq<string>): (r: string)
    ensures StartsWith(r, "/")
  {
    if comps == [] then "/" else Joined(comps)
  }

  /** `os.path.abspath(p)`: always an absolute path. */
  function AbsPath(cwd: seq<string>, p: string): (r: string)
    ensures StartsWith(r, "/")
  {
    Render(Resolve(cwd, p))
  }

  /**
   * The containment test of app.py: `file` starts with `dir` plus a
   * separator, or is `dir`. It holds exactly when `file` begins with `dir`
   * and ends there or continues with a separator, so a sibling such as
   * `dir + "x"` does not pass.
   */
  predicate Within(file: string, dir: string)
    ensures Within(file, dir) <==>
      |dir| <= |file| && file[..|dir|] == dir && (|file| == |dir| || file[|dir|] == '/')
  {
    StartsWith(file, dir + "/") || file == dir
  }

  /**
   * Starting from proper components and reading separator-free ones,
   * `normpath` leaves only proper components.
   */
  lemma {:induction false} NormaliseKeepsProper(at: seq<string>, comps: seq<string>)
    requires forall i :: 0 <= i < |at| ==> IsProper(at[i])
    requires forall i :: 0 <= i < |comps| ==> '/' !in comps[i]
    ensures forall i :: 0 <= i < |Normalise(at, comps)| ==> IsProper(Normalise(at, comps)[i])
    decreases |comps|
  {
    if comps != [] {
      var next := Step(at, comps[0]);
      assert forall i :: 0 <= i < |next| ==> IsProper(next[i]);
      NormaliseKeepsProper(next, comps[1..]);
    }
  }

  /**
   * `os.path.abspath` from a normalised working directory gives a normalised
   * path: no empty, `.` or `..` component is left.
   */
  lemma ResolveIsNormal(cwd: seq<string>, p: string)
    requires forall i :: 0 <= i < |cwd| ==> IsProper(cwd[i])
    ensures forall i :: 0 <= i < |Resolve(cwd, p)| ==> IsProper(Resolve(cwd, p)[i])
  {
    NormaliseKeepsProper(if StartsWith(p, "/") then [] else cwd, Split(p));
  }

  /** A string without a separator is a single component. */
  lemma {:induction false} SplitNoSeparator(p: string)
    requires '/' !in p
    ensures Split(p) == [p]
  {
    if p != [] {
      SplitNoSeparator(p[1..]);
      assert [p[0]] + p[1..] == p;
    }
  }

  /** Splitting at the first separator. */
  lemma {:induction false} SplitAtSeparator(a: string, b: string)
    requires '/' !in a
    ensures Split(a + "/" + b) == [a] + Split(b)
  {
    if a == [] {
      assert a + "/" + b == "/" + b;
    } else {
      var p := a + "/" + b;
      assert p[0] == a[0] && p[1..] == a[1..] + "/" + b;
      SplitAtSeparator(a[1..], b);
      assert [a[0]] + a[1..] == a;
    }
  }

  /** Joining two separator-free, non-empty parts puts one separator between them. */
  lemma JoinTwoParts(dir: string, name: string)
    requires dir != [] && '/' !in dir && name != [] && '/' !in name
    ensures PathJoin(dir, name) == dir + "/" + name
    ensures Split(PathJoin(dir, name)) == [dir, name]
    ensures !StartsWith(PathJoin(dir, name), "/")
  {
    assert !StartsWith(name, "/") by { assert name[0] in name && name[..1][0] == name[0]; }
    assert dir[|dir| - 1] in dir;
    var p := dir + "/" + name;
    assert !StartsWith(p, "/") by { assert p[0] == dir[0] && dir[0] in dir && p[..1][0] == p[0]; }
    SplitAtSeparator(dir, name);
    SplitNoSeparator(name);
  }

  /** Going down into proper components appends them. */
  lemma NormaliseProper(at: seq<string>, x: string, y: string)
    requires IsProper(x) && IsProper(y)
    ensures Normalise(at, [x, y]) == at + [x, y]
  {
    assert [x, y][1..] == [y];
    assert Normalise(at, [x, y]) == Normalise(at + [x], [y]);
    assert [y][1..] == [];
  }

  /** Rendering one more component appends a separator and the component. */
  lemma RenderAppend(comps: seq<string>, x: string)
    requires comps != []
    ensures Render(comps + [x]) == Render(comps) + "/" + x
  {
    assert (comps + [x])[..|comps|] == comps;
  }

  /**
   * Joining a proper component `name` to the relative directory `dir` and
   * making it absolute gives the absolute directory plus `name`: both as
   * components and as text, so the result lies strictly inside the
   * directory.
   */
  lemma {:induction false} JoinProperInside(cwd: seq<string>, dir: string, name: string)
    requires IsProper(dir) && IsProper(name)
    ensures Resolve(cwd, dir) == cwd + [dir]
    ensures Resolve(cwd, PathJoin(dir, name)) == cwd + [dir, name]
    ensures AbsPath(cwd, PathJoin(dir, name)) == AbsPath(cwd, dir) + "/" + name
    ensures Within(AbsPath(cwd, PathJoin(dir, name)), AbsPath(cwd, dir))
    ensures AbsPath(cwd, PathJoin(dir, name)) != AbsPath(cwd, dir)
  {
    SplitNoSeparator(dir);
    assert !StartsWith(dir, "/") by { assert dir[0] in dir && dir[..1][0] == dir[0]; }
    JoinTwoParts(dir, name);
    var p := PathJoin(dir, name);
    assert Normalise(cwd, [dir]) == cwd + [dir] by {
      assert [dir][1..] == [];
    }
    NormaliseProper(cwd, dir, name);
    assert cwd + [dir, name] == (cwd + [dir]) + [name];
    RenderAppend(cwd + [dir], name);
    var f := AbsPath(cwd, p);
    var d := AbsPath(cwd, dir);
    assert f == d + "/" + name;
    assert f[..|d + "/"|] == d + "/";
  }
}
