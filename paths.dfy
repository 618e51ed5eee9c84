/** Absolute paths as sequences of segments, and the parts of Node's `path`
    module that the two search functions use: join, resolve, the parent
    directory (`resolve(p, '..')`), formatting a path back into a string, and
    the relative normalisation behind `dirname(join(cwd, name)) === '.'`. */
module Paths {

  /** A segment a directory listing can return: not empty, not `.` or `..`, no separator */
  predicate IsName(s: string) {
    s != "" && s != "." && s != ".." && '/' !in s
  }

  type Name = s: string | IsName(s) witness "a"

  /** An absolute, normalised path; the filesystem root is [] */
  type Path = seq<Name>

  predicate IsAbsolute(s: string) {
    |s| > 0 && s[0] == '/'
  }

  /** `path.resolve(p, '..')`: the root is its own parent */
  function Parent(p: Path): (r: Path)
    ensures p == [] ==> r == []
    ensures p != [] ==> r + [p[|p| - 1]] == p
  {
    if p == [] then [] else p[..|p| - 1]
  }

  /** The directory reached from `p` after `k` ascents */
  function Ancestor(p: Path, k: nat): (r: Path)
    ensures r <= p
    ensures |r| == if k <= |p| then |p| - k else 0
  {
    if k <= |p| then p[..|p| - k] else []
  }

  lemma AncestorStep(p: Path, k: nat)
    ensures Ancestor(p, 0) == p
    ensures Ancestor(p, k + 1) == Parent(Ancestor(p, k))
  {
  }

  /** Every directory above the start is a prefix of the start's parent */
  lemma AncestorBelowParent(p: Path, k: nat)
    requires k >= 1
    ensures Ancestor(p, k) <= Parent(p)
  {
  }

  /** Splitting a string at every `/`, keeping empty pieces */
  function Split(s: string): (r: seq<string>)
    ensures |r| >= 1
    ensures forall i :: 0 <= i < |r| ==> '/' !in r[i]
  {
    if s == [] then [""]
    else if s[0] == '/' then [""] + Split(s[1..])
    else
      var t := Split(s[1..]);
      [[s[0]] + t[0]] + t[1..]
  }

  predicate NoSlash(parts: seq<string>) {
    forall i :: 0 <= i < |parts| ==> '/' !in parts[i]
  }

  /** One segment of `path.normalize` on an absolute path: `..` above the root stays at the root */
  function Step(b: Path, x: string): (r: Path)
    requires '/' !in x
  {
    if x == "" || x == "." then b
    else if x == ".." then Parent(b)
    else b + [x]
  }

  function Normalize(b: Path, parts: seq<string>): (r: Path)
    requires NoSlash(parts)
    decreases |parts|
  {
    if parts == [] then b else Normalize(Step(b, parts[0]), parts[1..])
  }

  /** `path.join(base, rel)` for an absolute `base` */
  function Join(base: Path, rel: string): (r: Path) {
    Normalize(base, Split(rel))
  }

  /** `path.resolve(s)` with `cwd` the process working directory */
  function Resolve(cwd: Path, s: string): (r: Path) {
    Normalize(if IsAbsolute(s) then [] else cwd, Split(s))
  }

  function Slashed(p: Path): (r: string) {
    if p == [] then "" else "/" + p[0] + Slashed(p[1..])
  }

  /** The string `path.resolve` returns for an absolute path */
  function Format(p: Path): (s: string)
    ensures IsAbsolute(s)
  {
    if p == [] then "/" else Slashed(p)
  }

  lemma {:induction false} SplitNoSlash(s: string)
    requires '/' !in s
    ensures Split(s) == [s]
  {
    if s != [] {
      SplitNoSlash(s[1..]);
      assert [s[0]] + s[1..] == s;
    }
  }

  lemma {:induction false} SplitPrefix(w: string, t: string)
    requires '/' !in w
    ensures Split(w + t) == [w + Split(t)[0]] + Split(t)[1..]
  {
    if w == [] {
      assert w + t == t;
      assert w + Split(t)[0] == Split(t)[0];
      assert Split(t) == [Split(t)[0]] + Split(t)[1..];
    } else {
      assert (w + t)[0] == w[0];
      assert (w + t)[1..] == w[1..] + t;
      SplitPrefix(w[1..], t);
      assert [w[0]] + (w[1..] + Split(t)[0]) == w + Split(t)[0];
    }
  }

  lemma {:induction false} SplitSlashed(p: Path)
    requires p != []
    ensures Split(Slashed(p)) == [""] + p
  {
    var t := Slashed(p[1..]);
    assert Slashed(p) == "/" + (p[0] + t);
    assert ("/" + (p[0] + t))[1..] == p[0] + t;
    SplitPrefix(p[0], t);
    if p[1..] == [] {
      assert t == "" && Split(t) == [""];
      assert p[0] + "" == p[0];
      assert p == [p[0]];
    } else {
      SplitSlashed(p[1..]);
      assert Split(t)[0] == "" && Split(t)[1..] == p[1..];
      assert p[0] + "" == p[0];
      assert [""] + [p[0]] + p[1..] == [""] + p;
    }
  }

  /** A path made of names is appended unchanged by normalisation */
  lemma {:induction false} NormalizeNames(b: Path, p: Path)
    ensures Normalize(b, p) == b + p
    decreases |p|
  {
    if p != [] {
      NormalizeNames(b + [p[0]], p[1..]);
      assert b + [p[0]] + p[1..] == b + p;
    }
  }

  /** Writing a path into a string and resolving that string gives the path back */
  lemma ResolveFormat(cwd: Path, p: Path)
    ensures Resolve(cwd, Format(p)) == p
  {
    if p == [] {
      assert "/"[1..] == "";
      assert Split("/") == ["", ""];
      assert Normalize([], ["", ""]) == Normalize([], [""]) == Normalize([], []);
    } else {
      SplitSlashed(p);
      assert ([""] + p)[1..] == p;
      NormalizeNames([], p);
    }
  }

  /** Joining a single name appends it */
  lemma JoinName(b: Path, n: Name)
    ensures Join(b, n) == b + [n]
  {
    SplitNoSlash(n);
    assert Normalize(b, [n]) == Normalize(b + [n], []);
  }

  /** One segment of `path.normalize` on a relative path: a `..` that cannot cancel a segment is kept */
  function RelStep(st: seq<string>, x: string): (r: seq<string>) {
    if x == "" || x == "." then st
    else if x == ".." then
      (if st != [] && st[|st| - 1] != ".." then st[..|st| - 1] else st + [".."])
    else st + [x]
  }

  function RelNormalize(st: seq<string>, parts: seq<string>): (r: seq<string>)
    decreases |parts|
  {
    if parts == [] then st else RelNormalize(RelStep(st, parts[0]), parts[1..])
  }

  /** `dirname(join(cwd, e)) === '.'`: the joined path is relative and has at most one segment
      once normalised (`x`, `.` and `..` all have dirname `.`) */
  predicate JoinedDirnameIsDot(cwd: string, e: Name) {
    !IsAbsolute(cwd) && |RelNormalize([], Split(cwd + "/" + e))| <= 1
  }

  /** `cwd` is a relative spelling of the working directory itself (`.`, `./`, `a/..`) */
  predicate IsDotDir(cwd: string) {
    !IsAbsolute(cwd) && RelNormalize([], Split(cwd)) == []
  }

  lemma {:induction false} SplitConcat(a: string, b: string)
    ensures Split(a + "/" + b) == Split(a) + Split(b)
  {
    if a == [] {
      assert a + "/" + b == "/" + b;
      assert ("/" + b)[1..] == b;
    } else if a[0] == '/' {
      assert (a + "/" + b)[1..] == a[1..] + "/" + b;
      SplitConcat(a[1..], b);
    } else {
      assert (a + "/" + b)[0] == a[0];
      assert (a + "/" + b)[1..] == a[1..] + "/" + b;
      SplitConcat(a[1..], b);
    }
  }

  lemma {:induction false} RelNormalizeAppend(st: seq<string>, xs: seq<string>, ys: seq<string>)
    ensures RelNormalize(st, xs + ys) == RelNormalize(RelNormalize(st, xs), ys)
    decreases |xs|
  {
    if xs == [] {
      assert xs + ys == ys;
    } else {
      assert (xs + ys)[0] == xs[0];
      assert (xs + ys)[1..] == xs[1..] + ys;
      RelNormalizeAppend(RelStep(st, xs[0]), xs[1..], ys);
    }
  }

  /** For a name out of a listing, the dirname test depends on the directory only */
  lemma DirnameDotUniform(cwd: string, e: Name)
    ensures JoinedDirnameIsDot(cwd, e) == IsDotDir(cwd)
  {
    SplitConcat(cwd, e);
    SplitNoSlash(e);
    RelNormalizeAppend([], Split(cwd), [e]);
    var st := RelNormalize([], Split(cwd));
    assert RelNormalize(st, [e]) == RelNormalize(st + [e], []) == st + [e];
  }
}
