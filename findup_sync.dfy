/** The older ascending search, the function lib/findup-sync.js exports.

    It wraps a non-array `patterns` value in an array, derives `globOptions`
    from the caller's options (inheriting from them, so the caller's object is
    never written), and then, in a do/while loop, asks the glob engine for every
    pattern in the current directory, concatenates the results in pattern order,
    removes duplicates and returns the first file joined to the directory; when
    nothing matched it moves `globOptions.cwd` to the parent and stops after the
    root, whose parent is itself. */
module FindupSync {
  import opened Paths
  import opened Js

  /** The glob options the search derives: the directory it searches, `maxDepth` and the
      properties inherited from the caller's options (`nocase` stands for every property
      that is only passed through) */
  datatype GlobOptions = GlobOptions(cwd: Path, maxDepth: int, matchBase: bool, nocase: bool)

  /** `glob.sync(pattern, globOptions)`: the matches, as strings relative to `cwd` */
  type Glob = (Arg, GlobOptions) -> seq<string>

  /** `if (!Array.isArray(patterns)) patterns = [patterns]`: any value is accepted */
  function Patterns(patterns: Arg): (r: seq<Arg>)
    ensures patterns.Arr? ==> |r| == |patterns.items| && forall i :: 0 <= i < |r| ==> r[i] == Str(patterns.items[i])
    ensures !patterns.Arr? ==> r == [patterns]
  {
    if patterns.Arr? then seq(|patterns.items|, i requires 0 <= i < |patterns.items| => Str(patterns.items[i]))
    else [patterns]
  }

  /** `globOptions` before the first level: `Object.create(options || {})` with `maxDepth`
      set to 1 and `cwd` set to `path.resolve(globOptions.cwd || '.')` */
  function InitialGlobOptions(options: Options?, processCwd: Path): (g: GlobOptions)
    reads options
    ensures g.maxDepth == 1
    ensures g.matchBase == (options != null && options.matchBase)
    ensures g.nocase == (options != null && options.nocase)
  {
    var cwd := if options == null || options.cwd == "" then "." else options.cwd;
    GlobOptions(Resolve(processCwd, cwd), 1, options != null && options.matchBase, options != null && options.nocase)
  }

  /** Without a `cwd` option the search starts in the process working directory, and an
      absolute `cwd` option does not depend on it */
  lemma InitialCwd(options: Options?, processCwd: Path, other: Path)
    ensures options == null || options.cwd == "" ==> InitialGlobOptions(options, processCwd).cwd == processCwd
    ensures options != null && IsAbsolute(options.cwd) ==>
      InitialGlobOptions(options, processCwd).cwd == InitialGlobOptions(options, other).cwd
  {
    SplitNoSlash(".");
    assert Normalize(processCwd, ["."]) == Normalize(processCwd, []);
  }

  /** `map(patterns, p => glob.sync(p, globOptions))` */
  function GlobEach(pats: seq<Arg>, g: GlobOptions, glob: Glob): (r: seq<seq<string>>)
    ensures |r| == |pats| && forall i :: 0 <= i < |pats| ==> r[i] == glob(pats[i], g)
  {
    seq(|pats|, i requires 0 <= i < |pats| => glob(pats[i], g))
  }

  /** `flatten`, one level deep */
  function Flatten(ss: seq<seq<string>>): (r: seq<string>)
    ensures forall x :: x in r <==> exists i :: 0 <= i < |ss| && x in ss[i]
  {
    if ss == [] then []
    else
      var r := ss[0] + Flatten(ss[1..]);
      assert forall x :: (exists i :: 0 <= i < |ss| && x in ss[i]) ==> x in r by {
        forall x, i | 0 <= i < |ss| && x in ss[i] ensures x in r {
          if i > 0 {
            assert ss[1..][i - 1] == ss[i];
          }
        }
      }
      r
  }

  /** Appending one more pattern's matches appends them to the concatenation */
  lemma {:induction false} FlattenSnoc(ss: seq<seq<string>>, x: seq<string>)
    ensures Flatten(ss + [x]) == Flatten(ss) + x
  {
    if ss == [] {
      assert ([] + [x])[1..] == [];
    } else {
      assert (ss + [x])[1..] == ss[1..] + [x];
      FlattenSnoc(ss[1..], x);
    }
  }

  /** `uniq`: the first occurrence of every value, in order */
  function Uniq(s: seq<string>): (r: seq<string>)
    ensures forall x :: x in r <==> x in s
    ensures forall i, j :: 0 <= i < j < |r| ==> r[i] != r[j]
    ensures s != [] ==> r != [] && r[0] == s[0]
  {
    if s == [] then []
    else
      var u := Uniq(s[..|s| - 1]);
      assert forall x :: x in s <==> x in s[..|s| - 1] || x == s[|s| - 1] by {
        assert s == s[..|s| - 1] + [s[|s| - 1]];
      }
      if s[|s| - 1] in u then u else u + [s[|s| - 1]]
  }

  /** The files one level yields: the glob results of every pattern, concatenated in pattern
      order, without duplicates */
  function LevelFiles(pats: seq<Arg>, g: GlobOptions, glob: Glob): (r: seq<string>) {
    Uniq(Flatten(GlobEach(pats, g, glob)))
  }

  /** Some pattern has a match in the directory of `g` */
  predicate LevelHit(pats: seq<Arg>, g: GlobOptions, glob: Glob) {
    exists i :: 0 <= i < |pats| && glob(pats[i], g) != []
  }

  lemma {:induction false} FlattenFirst(ss: seq<seq<string>>, i: nat)
    requires i < |ss| && ss[i] != [] && forall j :: 0 <= j < i ==> ss[j] == []
    ensures Flatten(ss) != [] && Flatten(ss)[0] == ss[i][0]
  {
    if i > 0 {
      assert ss[0] == [];
      FlattenFirst(ss[1..], i - 1);
      assert Flatten(ss) == Flatten(ss[1..]);
    }
  }

  /** A level yields files exactly when some pattern matches */
  lemma LevelFilesNonEmpty(pats: seq<Arg>, g: GlobOptions, glob: Glob)
    ensures LevelFiles(pats, g, glob) != [] <==> LevelHit(pats, g, glob)
  {
    var ss := GlobEach(pats, g, glob);
    var files := LevelFiles(pats, g, glob);
    if LevelHit(pats, g, glob) {
      var i :| 0 <= i < |pats| && glob(pats[i], g) != [];
      assert glob(pats[i], g)[0] in ss[i];
      assert glob(pats[i], g)[0] in files;
    }
    if files != [] {
      assert files[0] in Flatten(ss);
      var i :| 0 <= i < |ss| && files[0] in ss[i];
      assert glob(pats[i], g) != [];
    }
  }

  /** The first file of a level is the first match of the first pattern that has one,
      whatever `uniq` removes */
  lemma LevelFilesFirst(pats: seq<Arg>, g: GlobOptions, glob: Glob, i: nat)
    requires i < |pats| && glob(pats[i], g) != []
    requires forall j :: 0 <= j < i ==> glob(pats[j], g) == []
    ensures LevelFiles(pats, g, glob) != [] && LevelFiles(pats, g, glob)[0] == glob(pats[i], g)[0]
  {
    FlattenFirst(GlobEach(pats, g, glob), i);
  }

  /** Whether a level hits depends on the set of patterns only, not on their order */
  lemma LevelHitOrderFree(pats: seq<Arg>, qats: seq<Arg>, g: GlobOptions, glob: Glob)
    requires forall x :: x in pats <==> x in qats
    ensures LevelHit(pats, g, glob) <==> LevelHit(qats, g, glob)
  {
    if LevelHit(pats, g, glob) {
      var i :| 0 <= i < |pats| && glob(pats[i], g) != [];
      assert pats[i] in qats;
      var j :| 0 <= j < |qats| && qats[j] == pats[i];
    }
    if LevelHit(qats, g, glob) {
      var i :| 0 <= i < |qats| && glob(qats[i], g) != [];
      assert qats[i] in pats;
      var j :| 0 <= j < |pats| && pats[j] == qats[i];
    }
  }

  /** The glob options of the k-th iteration: only `cwd` has moved, k directories up */
  function AtLevel(g0: GlobOptions, k: nat): (r: GlobOptions) {
    g0.(cwd := Ancestor(g0.cwd, k))
  }

  /** What one level returns: the first of its files joined to its directory, if any */
  function LevelResult(pats: seq<Arg>, g: GlobOptions, glob: Glob): (r: Option<Path>) {
    var files := LevelFiles(pats, g, glob);
    if |files| > 0 then Some(Join(g.cwd, files[0])) else None
  }

  /** What each level returns, by iteration number */
  type LevelView = nat -> Option<Path>

  /** The per-level results of one search */
  function ResultsOf(pats: seq<Arg>, g0: GlobOptions, glob: Glob): (r: LevelView) {
    (k: nat) => LevelResult(pats, AtLevel(g0, k), glob)
  }

  /** Iterations k, k + 1, ... of the do/while loop from the directory `start`, given what each
      level returns. Iteration k searches `Ancestor(start, k)`; the loop's test that the
      parent equals the directory just searched holds exactly at the root, iteration
      `|start|` (`AncestorFixed`). */
  function SyncFrom(start: Path, lv: LevelView, k: nat): (r: Option<Path>)
    requires k <= |start|
    decreases |start| - k
  {
    if lv(k).Some? then lv(k)
    else if k == |start| then None
    else SyncFrom(start, lv, k + 1)
  }

  /** The exported function, called with `patterns` and `options` */
  function FindupSyncSpec(patterns: Arg, options: Options?, processCwd: Path, glob: Glob): (r: Option<Path>)
    reads options
  {
    var g0 := InitialGlobOptions(options, processCwd);
    SyncFrom(g0.cwd, ResultsOf(Patterns(patterns), g0, glob), 0)
  }

  /** Only the root is its own parent, so the loop ends after the root */
  lemma AncestorFixed(p: Path, k: nat)
    requires k <= |p|
    ensures Parent(Ancestor(p, k)) == Ancestor(p, k) <==> k == |p|
  {
    if k < |p| {
      assert |Parent(Ancestor(p, k))| == |p| - k - 1;
    }
  }

  /** What iteration k does with the result of its level */
  lemma SyncAt(start: Path, lv: LevelView, k: nat)
    requires k <= |start|
    ensures lv(k).Some? ==> SyncFrom(start, lv, k) == lv(k)
    ensures lv(k).None? && k == |start| ==> SyncFrom(start, lv, k) == None
    ensures lv(k).None? && k < |start| ==> SyncFrom(start, lv, k) == SyncFrom(start, lv, k + 1)
  {
  }

  lemma {:induction false} SyncSkip(start: Path, lv: LevelView, k0: nat, k: nat)
    requires k0 <= k <= |start|
    requires forall j :: k0 <= j < k ==> lv(j).None?
    ensures SyncFrom(start, lv, k0) == SyncFrom(start, lv, k)
    decreases k - k0
  {
    if k0 < k {
      assert lv(k0).None?;
      SyncSkip(start, lv, k0 + 1, k);
    }
  }

  lemma {:induction false} EmptyFrom(start: Path, lv: LevelView, k0: nat)
    requires k0 <= |start|
    requires forall j :: k0 <= j <= |start| ==> lv(j).None?
    ensures SyncFrom(start, lv, k0) == None
    decreases |start| - k0
  {
    assert lv(k0).None?;
    SyncAt(start, lv, k0);
    if k0 < |start| {
      EmptyFrom(start, lv, k0 + 1);
    }
  }

  lemma {:induction false} NonEmptyFrom(start: Path, lv: LevelView, k0: nat)
    requires k0 <= |start|
    requires SyncFrom(start, lv, k0).Some?
    ensures exists k :: k0 <= k <= |start| && lv(k).Some?
    decreases |start| - k0
  {
    if lv(k0).None? {
      NonEmptyFrom(start, lv, k0 + 1);
    }
  }

  /** Level k is the first level, counting up from the start, at which some pattern matches */
  predicate FirstHitLevel(pats: seq<Arg>, g0: GlobOptions, glob: Glob, k: nat) {
    k <= |g0.cwd| && LevelHit(pats, AtLevel(g0, k), glob) &&
    forall j :: 0 <= j < k ==> !LevelHit(pats, AtLevel(g0, j), glob)
  }

  /** A level returns something exactly when some pattern matches there */
  lemma ResultsOfHit(pats: seq<Arg>, g0: GlobOptions, glob: Glob)
    ensures forall k: nat :: ResultsOf(pats, g0, glob)(k).Some? <==> LevelHit(pats, AtLevel(g0, k), glob)
  {
    forall k: nat ensures ResultsOf(pats, g0, glob)(k).Some? <==> LevelHit(pats, AtLevel(g0, k), glob) {
      LevelFilesNonEmpty(pats, AtLevel(g0, k), glob);
    }
  }

  /** When level k is the first with a match, the result is the first file of that level joined
      to its directory: the nearest directory wins, whatever the pattern order */
  lemma SyncFound(pats: seq<Arg>, g0: GlobOptions, glob: Glob, k: nat)
    requires FirstHitLevel(pats, g0, glob, k)
    ensures LevelFiles(pats, AtLevel(g0, k), glob) != []
    ensures SyncFrom(g0.cwd, ResultsOf(pats, g0, glob), 0) ==
            Some(Join(Ancestor(g0.cwd, k), LevelFiles(pats, AtLevel(g0, k), glob)[0]))
  {
    var lv := ResultsOf(pats, g0, glob);
    ResultsOfHit(pats, g0, glob);
    SyncSkip(g0.cwd, lv, 0, k);
    assert lv(k) == LevelResult(pats, AtLevel(g0, k), glob);
  }

  /** Some level hits, so a first one does */
  lemma {:induction false} FirstHitExists(pats: seq<Arg>, g0: GlobOptions, glob: Glob, k: nat)
    requires k <= |g0.cwd| && LevelHit(pats, AtLevel(g0, k), glob)
    ensures exists f :: FirstHitLevel(pats, g0, glob, f)
  {
    if forall j :: 0 <= j < k ==> !LevelHit(pats, AtLevel(g0, j), glob) {
      assert FirstHitLevel(pats, g0, glob, k);
    } else {
      var j :| 0 <= j < k && LevelHit(pats, AtLevel(g0, j), glob);
      FirstHitExists(pats, g0, glob, j);
    }
  }

  /** null is returned exactly when no level from the start up to the root has a match */
  lemma SyncNull(pats: seq<Arg>, g0: GlobOptions, glob: Glob)
    ensures SyncFrom(g0.cwd, ResultsOf(pats, g0, glob), 0) == None <==>
      forall k :: 0 <= k <= |g0.cwd| ==> !LevelHit(pats, AtLevel(g0, k), glob)
  {
    ResultsOfHit(pats, g0, glob);
    if forall k :: 0 <= k <= |g0.cwd| ==> !LevelHit(pats, AtLevel(g0, k), glob) {
      EmptyFrom(g0.cwd, ResultsOf(pats, g0, glob), 0);
    } else {
      var k :| 0 <= k <= |g0.cwd| && LevelHit(pats, AtLevel(g0, k), glob);
      FirstHitExists(pats, g0, glob, k);
      var f :| FirstHitLevel(pats, g0, glob, f);
      SyncFound(pats, g0, glob, f);
    }
  }

  /** A non-null result comes from the first level with a match: it is that level's first
      file joined to that level's directory */
  lemma SyncResultLevel(pats: seq<Arg>, g0: GlobOptions, glob: Glob)
    requires SyncFrom(g0.cwd, ResultsOf(pats, g0, glob), 0).Some?
    ensures exists k :: (FirstHitLevel(pats, g0, glob, k) && LevelFiles(pats, AtLevel(g0, k), glob) != [] &&
      SyncFrom(g0.cwd, ResultsOf(pats, g0, glob), 0) ==
        Some(Join(Ancestor(g0.cwd, k), LevelFiles(pats, AtLevel(g0, k), glob)[0])))
  {
    ResultsOfHit(pats, g0, glob);
    NonEmptyFrom(g0.cwd, ResultsOf(pats, g0, glob), 0);
    var k :| 0 <= k <= |g0.cwd| && ResultsOf(pats, g0, glob)(k).Some?;
    FirstHitExists(pats, g0, glob, k);
    var f :| FirstHitLevel(pats, g0, glob, f);
    SyncFound(pats, g0, glob, f);
  }

  /** Reordering the patterns (or repeating some) does not change which level the result
      comes from, nor whether there is one */
  lemma SyncOrderFree(pats: seq<Arg>, qats: seq<Arg>, g0: GlobOptions, glob: Glob)
    requires forall x :: x in pats <==> x in qats
    ensures SyncFrom(g0.cwd, ResultsOf(pats, g0, glob), 0).None? <==> SyncFrom(g0.cwd, ResultsOf(qats, g0, glob), 0).None?
    ensures forall k :: FirstHitLevel(pats, g0, glob, k) <==> FirstHitLevel(qats, g0, glob, k)
  {
    forall k: nat ensures LevelHit(pats, AtLevel(g0, k), glob) <==> LevelHit(qats, AtLevel(g0, k), glob) {
      LevelHitOrderFree(pats, qats, AtLevel(g0, k), glob);
    }
    SyncNull(pats, g0, glob);
    SyncNull(qats, g0, glob);
  }

  /** When exactly one pattern matches in the start directory, and only the name `name`,
      the result is that name in the start directory, wherever the pattern stands */
  lemma SoleMatchAtStart(pats: seq<Arg>, g0: GlobOptions, glob: Glob, i: nat, name: Name)
    requires i < |pats| && glob(pats[i], g0) == [name]
    requires forall j :: 0 <= j < |pats| && j != i ==> glob(pats[j], g0) == []
    ensures SyncFrom(g0.cwd, ResultsOf(pats, g0, glob), 0) == Some(g0.cwd + [name])
  {
    assert AtLevel(g0, 0) == g0;
    assert FirstHitLevel(pats, g0, glob, 0);
    SyncFound(pats, g0, glob, 0);
    LevelFilesFirst(pats, g0, glob, i);
    JoinName(g0.cwd, name);
  }

  /** A directory holding `bar.txt` but nothing matching `f*.txt` is where the search ends,
      whichever of the two patterns comes first */
  lemma NearestDirBeatsPatternOrder(options: Options?, processCwd: Path, glob: Glob)
    requires glob(Str("b*.txt"), InitialGlobOptions(options, processCwd)) == ["bar.txt"]
    requires glob(Str("f*.txt"), InitialGlobOptions(options, processCwd)) == []
    ensures FindupSyncSpec(Arr(["b*.txt", "f*.txt"]), options, processCwd, glob) ==
            Some(InitialGlobOptions(options, processCwd).cwd + ["bar.txt"])
    ensures FindupSyncSpec(Arr(["f*.txt", "b*.txt"]), options, processCwd, glob) ==
            Some(InitialGlobOptions(options, processCwd).cwd + ["bar.txt"])
  {
    var g0 := InitialGlobOptions(options, processCwd);
    var p1 := Patterns(Arr(["b*.txt", "f*.txt"]));
    var p2 := Patterns(Arr(["f*.txt", "b*.txt"]));
    assert |p1| == 2 && p1[0] == Str("b*.txt") && p1[1] == Str("f*.txt");
    assert |p2| == 2 && p2[0] == Str("f*.txt") && p2[1] == Str("b*.txt");
    SoleMatchAtStart(p1, g0, glob, 0, "bar.txt");
    SoleMatchAtStart(p2, g0, glob, 1, "bar.txt");
  }

  /** One iteration's search: `map` asks the glob engine for every pattern in turn and the
      answers are concatenated as they arrive, then `uniq` and the join. The result is the
      level's result, and it is present exactly when some pattern matches. */
  method SearchDir(pats: seq<Arg>, g: GlobOptions, glob: Glob, ghost g0: GlobOptions, ghost k: nat)
    returns (r: Option<Path>)
    requires g == AtLevel(g0, k)
    ensures r == ResultsOf(pats, g0, glob)(k)
    ensures r.Some? <==> LevelHit(pats, g, glob)
  {
    var acc: seq<string> := [];
    var i := 0;
    while i < |pats|
      invariant 0 <= i <= |pats|
      invariant acc == Flatten(GlobEach(pats[..i], g, glob))
    {
      var matches := glob(pats[i], g);
      FlattenSnoc(GlobEach(pats[..i], g, glob), matches);
      assert GlobEach(pats[..i + 1], g, glob) == GlobEach(pats[..i], g, glob) + [matches];
      acc := acc + matches;
      i := i + 1;
    }
    assert pats[..i] == pats;
    var files := Uniq(acc);
    LevelFilesNonEmpty(pats, g, glob);
    if |files| > 0 {
      return Some(Join(g.cwd, files[0]));
    }
    return None;
  }

  /** The start directory and its first n - 1 ancestors, nearest first, all different; with
      n == |p| + 1 the last is the root */
  function Ancestors(p: Path, n: nat): (r: seq<Path>)
    requires n <= |p| + 1
    ensures |r| == n && forall i :: 0 <= i < n ==> r[i] == Ancestor(p, i)
    ensures forall i, j :: 0 <= i < j < n ==> r[i] != r[j]
  {
    var r := seq(n, i requires 0 <= i < n => Ancestor(p, i));
    assert forall i, j :: 0 <= i < j < n ==> r[i] != r[j] by {
      forall i, j | 0 <= i < j < n ensures r[i] != r[j] {
        assert |r[i]| == |p| - i;
      }
    }
    r
  }

  lemma AncestorsSnoc(p: Path, n: nat)
    requires n <= |p|
    ensures Ancestors(p, n + 1) == Ancestors(p, n) + [Ancestor(p, n)]
  {
  }

  /** The first n iterations found nothing */
  predicate Missed(lv: LevelView, n: int) {
    forall j :: 0 <= j < n ==> lv(j).None?
  }

  lemma MissedSnoc(lv: LevelView, n: nat)
    requires Missed(lv, n) && lv(n).None?
    ensures Missed(lv, n + 1)
  {
  }

  /** The do/while loop from the directory `g0.cwd`; `visited` lists the directories it
      searched, nearest first: the start and its ancestors, each once, up to the root when
      nothing is found */
  method Ascend(pats: seq<Arg>, g0: GlobOptions, glob: Glob) returns (r: Option<Path>, ghost visited: seq<Path>)
    ensures r == SyncFrom(g0.cwd, ResultsOf(pats, g0, glob), 0)
    ensures 1 <= |visited| <= |g0.cwd| + 1 && visited == Ancestors(g0.cwd, |visited|)
    ensures r.None? ==> |visited| == |g0.cwd| + 1
    ensures r.Some? ==> r == ResultsOf(pats, g0, glob)(|visited| - 1)
    ensures Missed(ResultsOf(pats, g0, glob), |visited| - 1)
    ensures r.None? ==> Missed(ResultsOf(pats, g0, glob), |visited|)
  {
    var globOptions := g0;
    ghost var lv := ResultsOf(pats, g0, glob);
    visited := [];
    r := None;
    while true
      invariant |visited| <= |g0.cwd|
      invariant globOptions == AtLevel(g0, |visited|)
      invariant visited == Ancestors(g0.cwd, |visited|)
      invariant SyncFrom(g0.cwd, lv, 0) == SyncFrom(g0.cwd, lv, |visited|)
      invariant Missed(lv, |visited|)
      decreases |globOptions.cwd|
    {
      ghost var k := |visited|;
      AncestorsSnoc(g0.cwd, k);
      visited := visited + [globOptions.cwd];
      var found := SearchDir(pats, globOptions, glob, g0, k);
      SyncAt(g0.cwd, lv, k);
      if found.Some? {
        r := found;
        return;
      }
      MissedSnoc(lv, k);
      var lastpath := globOptions.cwd;
      globOptions := globOptions.(cwd := Parent(globOptions.cwd));
      AncestorStep(g0.cwd, k);
      AncestorFixed(g0.cwd, k);
      if globOptions.cwd == lastpath {
        break;
      }
    }
  }

  /** The exported function. `options == null` stands for a missing options argument. The
      function never writes the caller's object: it has no `modifies` clause. */
  method FindupSync(patterns: Arg, options: Options?, processCwd: Path, glob: Glob)
    returns (r: Option<Path>, ghost visited: seq<Path>)
    ensures r == FindupSyncSpec(patterns, options, processCwd, glob)
    ensures
      var start := InitialGlobOptions(options, processCwd).cwd;
      1 <= |visited| <= |start| + 1 && visited == Ancestors(start, |visited|) &&
      (r.None? ==> |visited| == |start| + 1)
    ensures
      var lv := ResultsOf(Patterns(patterns), InitialGlobOptions(options, processCwd), glob);
      (r.Some? ==> r == lv(|visited| - 1)) && Missed(lv, |visited| - 1) &&
      (r.None? ==> Missed(lv, |visited|))
  {
    var pats := Patterns(patterns);
    var globOptions := InitialGlobOptions(options, processCwd);
    r, visited := Ascend(pats, globOptions, glob);
  }
}
