/** The newer ascending search, `findup(patterns, options)` of index.js.

    At each level it tries the patterns from last to first, returning
    `join(cwd, pattern)` for the first non-glob pattern that exists and switching
    `matchBase` on in the options object for every pattern without `**`; then it
    scans the directory listing from last entry to first and returns the first
    entry the matcher accepts; otherwise it writes the parent directory into
    `opts.cwd` and calls itself. It returns null only when the parent equals
    `dir`, the process working directory at the time the module was loaded. */
module Findup {
  import opened Paths
  import opened Js

  const ArgMessage := "findup expects a string or array as the first argument."

  /** A snapshot of the filesystem: the paths `existsSync` reports, and what `readdirSync`
      returns for the directories it can read */
  datatype Fs = Fs(present: set<Path>, listing: map<Path, seq<Name>>)

  /** The option properties the matcher sees */
  datatype Settings = Settings(cwd: string, matchBase: bool, nocase: bool)

  /** What the search depends on besides its arguments: the filesystem, `dir`, the
      process working directory at call time, and the two glob libraries */
  datatype Env = Env(
    fs: Fs,
    dir: Path,
    processCwd: Path,
    isGlob: string -> bool,
    mm: (Path, seq<string>, Settings) -> bool)

  datatype Error = TypeError(message: string) | ReaddirError(dir: Path) | StackOverflow

  /** A returned path, a returned null, or a thrown exception */
  datatype Outcome = Found(path: Path) | NotFound | Thrown(error: Error)

  /** The fields of the options object that the search writes */
  datatype OptState = OptState(cwd: string, matchBase: bool)

  datatype LevelOutcome = Hit(path: Path) | Miss | Unreadable(dir: Path)

  /** One search: the environment, the normalised patterns and the options object's
      fields when `findup` was called */
  datatype Call = Call(env: Env, pats: seq<string>, cwd0: string, matchBase0: bool, nocase: bool)

  // The regular-expression test for `**` anywhere in the pattern
  function HasDoubleStar(s: string): (r: bool) {
    |s| >= 2 && ((s[0] == '*' && s[1] == '*') || HasDoubleStar(s[1..]))
  }

  lemma {:induction false} HasDoubleStarIff(s: string)
    ensures HasDoubleStar(s) <==> exists i :: 0 <= i < |s| - 1 && s[i] == '*' && s[i + 1] == '*'
  {
    if |s| >= 2 {
      HasDoubleStarIff(s[1..]);
      if HasDoubleStar(s[1..]) {
        var i :| 0 <= i < |s[1..]| - 1 && s[1..][i] == '*' && s[1..][i + 1] == '*';
        assert s[i + 1] == '*' && s[i + 2] == '*';
      }
      if exists i :: 0 <= i < |s| - 1 && s[i] == '*' && s[i + 1] == '*' {
        var i :| 0 <= i < |s| - 1 && s[i] == '*' && s[i + 1] == '*';
        if i > 0 {
          assert s[1..][i - 1] == '*' && s[1..][i] == '*';
        }
      }
    }
  }

  /** Some pattern from index `from` on lacks `**`, so the pattern loop sets `matchBase` */
  predicate SwitchesMatchBase(pats: seq<string>, from: nat) {
    exists j :: from <= j < |pats| && !HasDoubleStar(pats[j])
  }

  /** The pattern loop's step at index j */
  lemma SwitchesStep(pats: seq<string>, j: nat)
    requires j < |pats|
    ensures SwitchesMatchBase(pats, j) == (!HasDoubleStar(pats[j]) || SwitchesMatchBase(pats, j + 1))
  {
    if SwitchesMatchBase(pats, j) && HasDoubleStar(pats[j]) {
      var i :| j <= i < |pats| && !HasDoubleStar(pats[i]);
      assert j + 1 <= i;
    }
  }

  lemma SwitchesFrom(pats: seq<string>, i: nat, j: nat)
    requires i <= j
    ensures SwitchesMatchBase(pats, j) ==> SwitchesMatchBase(pats, i)
  {
    if SwitchesMatchBase(pats, j) {
      var m :| j <= m < |pats| && !HasDoubleStar(pats[m]);
      assert i <= m;
    }
  }

  /** A non-glob pattern whose join with the directory exists */
  predicate LiteralHit(pattern: string, here: Path, present: set<Path>, isGlob: string -> bool) {
    !isGlob(pattern) && Join(here, pattern) in present
  }

  /** The pattern loop over `pats[..k]`, last to first: the index of the first literal hit */
  function LiteralScan(pats: seq<string>, k: nat, here: Path, present: set<Path>, isGlob: string -> bool): (r: Option<nat>)
    requires k <= |pats|
    ensures r.Some? ==> r.value < k && LiteralHit(pats[r.value], here, present, isGlob)
    ensures r.Some? ==> forall j :: r.value < j < k ==> !LiteralHit(pats[j], here, present, isGlob)
    ensures r.None? ==> forall j :: 0 <= j < k ==> !LiteralHit(pats[j], here, present, isGlob)
  {
    if k == 0 then None
    else if LiteralHit(pats[k - 1], here, present, isGlob) then Some(k - 1)
    else LiteralScan(pats, k - 1, here, present, isGlob)
  }

  /** The entry loop over `entries[..k]`, last to first: the index of the first accepted entry,
      stopping at the first entry whose joined path has dirname `.`. Joining a listed name to
      the directory appends it (`JoinName`). */
  function EntryScan(entries: seq<Name>, k: nat, here: Path, cwd: string, pats: seq<string>,
                     s: Settings, mm: (Path, seq<string>, Settings) -> bool): (r: Option<nat>)
    requires k <= |entries|
    ensures IsDotDir(cwd) ==> r == None
    ensures !IsDotDir(cwd) && r.Some? ==>
      r.value < k && mm(here + [entries[r.value]], pats, s) &&
      forall j :: r.value < j < k ==> !mm(here + [entries[j]], pats, s)
    ensures !IsDotDir(cwd) && r.None? ==> forall j :: 0 <= j < k ==> !mm(here + [entries[j]], pats, s)
  {
    if k == 0 then None
    else
      DirnameDotUniform(cwd, entries[k - 1]);
      if JoinedDirnameIsDot(cwd, entries[k - 1]) then None
      else if mm(here + [entries[k - 1]], pats, s) then Some(k - 1)
      else EntryScan(entries, k - 1, here, cwd, pats, s, mm)
  }

  /** One level: the outcome and the new value of `opts.matchBase`. `cwd` is the local
      `cwd` string, `optCwd` the options object's `cwd` the matcher sees. */
  function Level(env: Env, pats: seq<string>, cwd: string, optCwd: string, mbIn: bool, nocase: bool): (r: (LevelOutcome, bool)) {
    var here := Resolve(env.processCwd, cwd);
    var lit := LiteralScan(pats, |pats|, here, env.fs.present, env.isGlob);
    if lit.Some? then
      (Hit(Join(here, pats[lit.value])), mbIn || SwitchesMatchBase(pats, lit.value + 1))
    else
      var mb := mbIn || SwitchesMatchBase(pats, 0);
      if here !in env.fs.listing then (Unreadable(here), mb)
      else
        var entries := env.fs.listing[here];
        var hit := EntryScan(entries, |entries|, here, cwd, pats, Settings(optCwd, mb, nocase), env.mm);
        if hit.Some? then (Hit(here + [entries[hit.value]]), mb) else (Miss, mb)
  }

  /** `opts.cwd || process.cwd()` */
  function Effective(processCwd: Path, optCwd: string): (r: string) {
    if optCwd != "" then optCwd else Format(processCwd)
  }

  /** The directory the first activation searches */
  function Start(c: Call): (r: Path) {
    Resolve(c.env.processCwd, Effective(c.env.processCwd, c.cwd0))
  }

  /** `opts.cwd` when activation k starts: written by activation k - 1 before it recursed */
  function CwdAt(c: Call, k: nat): (r: string) {
    if k == 0 then c.cwd0 else Format(Ancestor(Start(c), k))
  }

  /** `opts.matchBase` when activation k starts */
  function MatchBaseAt(c: Call, k: nat): (r: bool) {
    if k == 0 then c.matchBase0 else c.matchBase0 || SwitchesMatchBase(c.pats, 0)
  }

  /** The level search of activation k */
  function LevelAt(c: Call, k: nat): (r: (LevelOutcome, bool)) {
    Level(c.env, c.pats, Effective(c.env.processCwd, CwdAt(c, k)), CwdAt(c, k), MatchBaseAt(c, k), c.nocase)
  }

  /** Activation k searches the k-th ancestor of the start */
  lemma LevelDir(c: Call, k: nat)
    ensures Resolve(c.env.processCwd, Effective(c.env.processCwd, CwdAt(c, k))) == Ancestor(Start(c), k)
  {
    if k > 0 {
      ResolveFormat(c.env.processCwd, Ancestor(Start(c), k));
    }
  }

  /** After a miss, every pattern has been through the pattern loop */
  lemma LevelMissMatchBase(c: Call, k: nat)
    requires LevelAt(c, k).0.Miss?
    ensures LevelAt(c, k).1 == MatchBaseAt(c, k + 1)
  {
  }

  /** What the level search of each activation yields, by activation number */
  type Levels = nat -> (LevelOutcome, bool)

  /** The level searches of one call */
  function LevelsOf(c: Call): (r: Levels) {
    (k: nat) => LevelAt(c, k)
  }

  /** Activations k, k + 1, ... of a search starting in `start`, with room on the stack for
      activations up to `maxDepth`, given what each level search yields: the outcome and the
      activation that produced it (`maxDepth + 1` when the stack ran out) */
  function Chain(start: Path, dir: Path, lv: Levels, maxDepth: nat, k: nat): (r: (Outcome, nat))
    decreases maxDepth + 1 - k
  {
    if k > maxDepth then (Thrown(StackOverflow), k)
    else
      match lv(k).0
      case Hit(p) => (Found(p), k)
      case Unreadable(d) => (Thrown(ReaddirError(d)), k)
      case Miss =>
        if Ancestor(start, k + 1) == dir then (NotFound, k)
        else Chain(start, dir, lv, maxDepth, k + 1)
  }

  /** The outcome of a search and the options object's final `cwd` and `matchBase`, which
      the activation that produced the outcome left there, given the fields each activation
      finds on entry (`cw`, `mb`) */
  function Run(start: Path, dir: Path, lv: Levels, cw: nat -> string, mb: nat -> bool, maxDepth: nat): (r: (Outcome, OptState)) {
    var (o, e) := Chain(start, dir, lv, maxDepth, 0);
    (o, OptState(cw(e), if e <= maxDepth then lv(e).1 else mb(e)))
  }

  function CwdsOf(c: Call): (r: nat -> string) {
    (k: nat) => CwdAt(c, k)
  }

  function MatchBasesOf(c: Call): (r: nat -> bool) {
    (k: nat) => MatchBaseAt(c, k)
  }

  /** The whole search of one call */
  function Walk(c: Call, maxDepth: nat): (r: (Outcome, OptState)) {
    Run(Start(c), c.env.dir, LevelsOf(c), CwdsOf(c), MatchBasesOf(c), maxDepth)
  }

  /** `lv`, `cw` and `mb` are the level searches and entry fields of the call `c` */
  ghost predicate Tracks(c: Call, lv: Levels, cw: nat -> string, mb: nat -> bool) {
    (forall k: nat {:trigger LevelAt(c, k)} :: lv(k) == LevelAt(c, k)) &&
    (forall k: nat {:trigger CwdAt(c, k)} :: cw(k) == CwdAt(c, k)) &&
    (forall k: nat {:trigger MatchBaseAt(c, k)} :: mb(k) == MatchBaseAt(c, k))
  }

  lemma TracksOf(c: Call)
    ensures Tracks(c, LevelsOf(c), CwdsOf(c), MatchBasesOf(c))
  {
  }

  /** What activation k does with the outcome of its level */
  lemma ChainAt(start: Path, dir: Path, lv: Levels, maxDepth: nat, k: nat)
    requires k <= maxDepth
    ensures lv(k).0.Hit? ==> Chain(start, dir, lv, maxDepth, k) == (Found(lv(k).0.path), k)
    ensures lv(k).0.Unreadable? ==> Chain(start, dir, lv, maxDepth, k) == (Thrown(ReaddirError(lv(k).0.dir)), k)
    ensures lv(k).0.Miss? && Ancestor(start, k + 1) == dir ==> Chain(start, dir, lv, maxDepth, k) == (NotFound, k)
    ensures lv(k).0.Miss? && Ancestor(start, k + 1) != dir ==>
      Chain(start, dir, lv, maxDepth, k) == Chain(start, dir, lv, maxDepth, k + 1)
  {
  }

  /** Level k was searched and missed, and the ascent did not move into `dir` */
  predicate Passes(start: Path, dir: Path, lv: Levels, k: nat) {
    lv(k).0.Miss? && Ancestor(start, k + 1) != dir
  }

  lemma {:induction false} ChainSkip(start: Path, dir: Path, lv: Levels, maxDepth: nat, k0: nat, k: nat)
    requires k0 <= k <= maxDepth + 1
    requires forall j :: k0 <= j < k ==> Passes(start, dir, lv, j)
    ensures Chain(start, dir, lv, maxDepth, k0) == Chain(start, dir, lv, maxDepth, k)
    decreases k - k0
  {
    if k0 < k {
      assert Passes(start, dir, lv, k0);
      ChainAt(start, dir, lv, maxDepth, k0);
      ChainSkip(start, dir, lv, maxDepth, k0 + 1, k);
    }
  }

  /** The search ends at an activation between k and `maxDepth + 1`, and every activation
      before that one passed its level on */
  lemma {:induction false} ChainEnd(start: Path, dir: Path, lv: Levels, maxDepth: nat, k: nat)
    requires k <= maxDepth + 1
    ensures var e := Chain(start, dir, lv, maxDepth, k).1;
      k <= e <= maxDepth + 1 && (forall j :: k <= j < e ==> Passes(start, dir, lv, j)) &&
      (e <= maxDepth ==> !Passes(start, dir, lv, e))
    ensures Chain(start, dir, lv, maxDepth, k).1 <= maxDepth <==>
      (!Chain(start, dir, lv, maxDepth, k).0.Thrown? || !Chain(start, dir, lv, maxDepth, k).0.error.StackOverflow?)
    decreases maxDepth + 1 - k
  {
    if k <= maxDepth {
      ChainAt(start, dir, lv, maxDepth, k);
      if Passes(start, dir, lv, k) {
        ChainEnd(start, dir, lv, maxDepth, k + 1);
      }
    }
  }

  /** A path is returned exactly when some level the stack reaches hits while every nearer
      level missed without the ascent moving into `dir`; the search then ends at that level */
  lemma ChainFound(start: Path, dir: Path, lv: Levels, maxDepth: nat, p: Path)
    ensures Chain(start, dir, lv, maxDepth, 0).0 == Found(p) <==>
      exists k :: 0 <= k <= maxDepth && lv(k).0 == Hit(p) && forall j :: 0 <= j < k ==> Passes(start, dir, lv, j)
    ensures forall k :: 0 <= k <= maxDepth && lv(k).0 == Hit(p) && (forall j :: 0 <= j < k ==> Passes(start, dir, lv, j)) ==>
      Chain(start, dir, lv, maxDepth, 0) == (Found(p), k)
  {
    ChainEnd(start, dir, lv, maxDepth, 0);
    var e := Chain(start, dir, lv, maxDepth, 0).1;
    if Chain(start, dir, lv, maxDepth, 0).0 == Found(p) {
      ChainSkip(start, dir, lv, maxDepth, 0, e);
      ChainAt(start, dir, lv, maxDepth, e);
    }
    forall k | 0 <= k <= maxDepth && lv(k).0 == Hit(p) && (forall j :: 0 <= j < k ==> Passes(start, dir, lv, j))
      ensures Chain(start, dir, lv, maxDepth, 0) == (Found(p), k)
    {
      ChainSkip(start, dir, lv, maxDepth, 0, k);
      ChainAt(start, dir, lv, maxDepth, k);
    }
  }

  /** Level e missed and the ascent from it moves into `dir`, after levels 0 .. e - 1 passed */
  predicate EndsAtDir(start: Path, dir: Path, lv: Levels, e: nat) {
    lv(e).0.Miss? && Ancestor(start, e + 1) == dir && forall j :: 0 <= j < e ==> Passes(start, dir, lv, j)
  }

  /** null is returned exactly when, after levels 0 .. e - 1 passed, level e misses and the
      ascent from it moves into `dir` */
  lemma ChainNull(start: Path, dir: Path, lv: Levels, maxDepth: nat)
    ensures Chain(start, dir, lv, maxDepth, 0).0 == NotFound <==>
      exists e :: 0 <= e <= maxDepth && EndsAtDir(start, dir, lv, e)
  {
    ChainEnd(start, dir, lv, maxDepth, 0);
    var e := Chain(start, dir, lv, maxDepth, 0).1;
    if Chain(start, dir, lv, maxDepth, 0).0 == NotFound {
      ChainSkip(start, dir, lv, maxDepth, 0, e);
      ChainAt(start, dir, lv, maxDepth, e);
      assert EndsAtDir(start, dir, lv, e);
    }
    forall e | 0 <= e <= maxDepth && EndsAtDir(start, dir, lv, e)
      ensures Chain(start, dir, lv, maxDepth, 0).0 == NotFound
    {
      ChainSkip(start, dir, lv, maxDepth, 0, e);
      ChainAt(start, dir, lv, maxDepth, e);
    }
  }

  /** When null is returned, no directory the search went through was `dir`, except when the
      search started at the root and `dir` is the root: that level is searched, and its
      parent, the root again, is `dir` */
  lemma ChainNullSkipsDir(start: Path, dir: Path, lv: Levels, maxDepth: nat)
    requires Chain(start, dir, lv, maxDepth, 0).0 == NotFound
    ensures forall j :: 0 <= j <= Chain(start, dir, lv, maxDepth, 0).1 && Ancestor(start, j) == dir ==>
      start == [] && dir == []
  {
    ChainEnd(start, dir, lv, maxDepth, 0);
    var e := Chain(start, dir, lv, maxDepth, 0).1;
    ChainSkip(start, dir, lv, maxDepth, 0, e);
    ChainAt(start, dir, lv, maxDepth, e);
    assert Ancestor(start, e + 1) == dir;
    forall j | 1 <= j <= e ensures Ancestor(start, j) != dir {
      assert Passes(start, dir, lv, j - 1);
    }
    assert Ancestor(start, 0) == start;
  }

  /** Started at the root with `dir` the root, the root itself is searched, and a miss there
      returns null */
  lemma RootSearchedWhenDirIsRoot(lv: Levels, maxDepth: nat)
    requires lv(0).0.Miss?
    ensures Chain([], [], lv, maxDepth, 0) == (NotFound, 0)
  {
    ChainAt([], [], lv, maxDepth, 0);
  }

  /** Started where the ascent reaches `dir` (`dir` is the start's parent or above it, the root
      being its own parent), the search is over after at most |start| - |dir| activations */
  lemma ChainStopsBelowDir(start: Path, dir: Path, lv: Levels, maxDepth: nat)
    requires dir <= Parent(start)
    requires maxDepth + 1 >= if start == [] then 1 else |start| - |dir|
    ensures Chain(start, dir, lv, maxDepth, 0).0 != Thrown(StackOverflow)
  {
    var m := if start == [] then 1 else |start| - |dir|;
    assert dir <= start;
    assert Ancestor(start, m) == dir;
    ChainEnd(start, dir, lv, maxDepth, 0);
    assert !Passes(start, dir, lv, m - 1);
  }

  /** Started where the ascent does not reach `dir` (at `dir` when `dir` is not the root, above
      it, or on another branch), the search never returns null */
  lemma ChainNeverNullOutsideDir(start: Path, dir: Path, lv: Levels, maxDepth: nat)
    requires !(dir <= Parent(start))
    ensures Chain(start, dir, lv, maxDepth, 0).0 != NotFound
  {
    ChainNull(start, dir, lv, maxDepth);
    forall m: nat | m >= 1 ensures Ancestor(start, m) != dir {
      AncestorBelowParent(start, m);
    }
  }

  /** Started where the ascent does not reach `dir`, with nothing to find, the ascent passes
      the root and keeps searching it until the stack is exhausted */
  lemma ChainOverflowsOutsideDir(start: Path, dir: Path, lv: Levels, maxDepth: nat)
    requires !(dir <= Parent(start))
    requires forall k :: 0 <= k <= maxDepth ==> lv(k).0.Miss?
    ensures Chain(start, dir, lv, maxDepth, 0).0 == Thrown(StackOverflow)
  {
    forall j | 0 <= j <= maxDepth ensures Passes(start, dir, lv, j) {
      AncestorBelowParent(start, j + 1);
    }
    ChainSkip(start, dir, lv, maxDepth, 0, maxDepth + 1);
  }

  /** The ascent raises no TypeError: that error comes only from the argument check */
  lemma ChainNoTypeError(start: Path, dir: Path, lv: Levels, maxDepth: nat)
    ensures !Chain(start, dir, lv, maxDepth, 0).0.Thrown? || !Chain(start, dir, lv, maxDepth, 0).0.error.TypeError?
  {
    ChainEnd(start, dir, lv, maxDepth, 0);
    var e := Chain(start, dir, lv, maxDepth, 0).1;
    ChainSkip(start, dir, lv, maxDepth, 0, e);
    if e <= maxDepth {
      ChainAt(start, dir, lv, maxDepth, e);
    }
  }

  /** From the second activation on, `matchBase` already holds what the pattern loop can set,
      so no level search changes it */
  lemma LevelKeepsMatchBase(c: Call, k: nat)
    requires k >= 1
    ensures LevelAt(c, k).1 == MatchBaseAt(c, 1)
  {
    var here := Resolve(c.env.processCwd, Effective(c.env.processCwd, CwdAt(c, k)));
    var lit := LiteralScan(c.pats, |c.pats|, here, c.env.fs.present, c.env.isGlob);
    if lit.Some? {
      SwitchesFrom(c.pats, 0, lit.value + 1);
    }
  }

  /** `opts.matchBase` ends up true only because of a pattern without `**` (or because it was
      true already); it ends up as the first level's pattern loop left it: set by any pattern
      without `**` when no pattern hit literally, and only by the patterns after the hit
      otherwise */
  lemma FindupMatchBase(c: Call, maxDepth: nat)
    ensures Walk(c, maxDepth).1.matchBase ==> c.matchBase0 || SwitchesMatchBase(c.pats, 0)
    ensures
      var lit := LiteralScan(c.pats, |c.pats|, Start(c), c.env.fs.present, c.env.isGlob);
      Walk(c, maxDepth).1.matchBase == (c.matchBase0 || SwitchesMatchBase(c.pats, if lit.Some? then lit.value + 1 else 0))
  {
    var lv := LevelsOf(c);
    ChainEnd(Start(c), c.env.dir, lv, maxDepth, 0);
    var e := Chain(Start(c), c.env.dir, lv, maxDepth, 0).1;
    var lit := LiteralScan(c.pats, |c.pats|, Start(c), c.env.fs.present, c.env.isGlob);
    if e == 0 {
      assert Walk(c, maxDepth).1.matchBase == LevelAt(c, 0).1;
      if lit.Some? {
        SwitchesFrom(c.pats, 0, lit.value + 1);
      }
    } else {
      assert Passes(Start(c), c.env.dir, lv, 0);
      assert LevelAt(c, 0).0.Miss?;
      if e <= maxDepth {
        LevelKeepsMatchBase(c, e);
      }
    }
  }

  /** A path is returned exactly when some level the stack reaches hits while every nearer
      level missed without the ascent moving into `dir`; the options object then holds the
      `cwd` of that level */
  lemma FindupFound(c: Call, maxDepth: nat, p: Path)
    ensures Walk(c, maxDepth).0 == Found(p) <==>
      exists k :: 0 <= k <= maxDepth && LevelAt(c, k).0 == Hit(p) &&
        forall j :: 0 <= j < k ==> Passes(Start(c), c.env.dir, LevelsOf(c), j)
    ensures forall k ::
      (0 <= k <= maxDepth && LevelAt(c, k).0 == Hit(p) && forall j :: 0 <= j < k ==> Passes(Start(c), c.env.dir, LevelsOf(c), j)) ==>
      Walk(c, maxDepth).1.cwd == CwdAt(c, k)
  {
    var lv := LevelsOf(c);
    ChainFound(Start(c), c.env.dir, lv, maxDepth, p);
    assert forall k: nat :: lv(k) == LevelAt(c, k);
  }

  /** null is returned exactly when the ascent moves into `dir` after every level up to there
      missed; the start is `dir` only when both are the root */
  lemma FindupNull(c: Call, maxDepth: nat)
    ensures Walk(c, maxDepth).0 == NotFound <==>
      exists e :: 0 <= e <= maxDepth && EndsAtDir(Start(c), c.env.dir, LevelsOf(c), e)
    ensures Walk(c, maxDepth).0 == NotFound && Start(c) == c.env.dir ==> Start(c) == []
  {
    ChainNull(Start(c), c.env.dir, LevelsOf(c), maxDepth);
    if Walk(c, maxDepth).0 == NotFound {
      ChainNullSkipsDir(Start(c), c.env.dir, LevelsOf(c), maxDepth);
    }
  }

  /** Started where the ascent reaches `dir`, with room for |start| - |dir| activations, the
      search returns a path, returns null or hits an unreadable directory: the stack never
      overflows */
  lemma FindupStopsBelowDir(c: Call, maxDepth: nat)
    requires c.env.dir <= Parent(Start(c))
    requires maxDepth + 1 >= if Start(c) == [] then 1 else |Start(c)| - |c.env.dir|
    ensures Walk(c, maxDepth).0 != Thrown(StackOverflow)
  {
    ChainStopsBelowDir(Start(c), c.env.dir, LevelsOf(c), maxDepth);
  }

  /** Started where the ascent does not reach `dir` (at `dir` when `dir` is not the root, above
      it, or on another branch), the search never returns null, and with nothing to find it
      exhausts the stack */
  lemma FindupOutsideDir(c: Call, maxDepth: nat)
    ensures !(c.env.dir <= Parent(Start(c))) ==> Walk(c, maxDepth).0 != NotFound
    ensures !(c.env.dir <= Parent(Start(c))) && (forall k :: 0 <= k <= maxDepth ==> LevelAt(c, k).0.Miss?) ==>
      Walk(c, maxDepth).0 == Thrown(StackOverflow)
  {
    if c.env.dir <= Parent(Start(c)) {
      return;
    }
    var lv := LevelsOf(c);
    ChainNeverNullOutsideDir(Start(c), c.env.dir, lv, maxDepth);
    if forall k :: 0 <= k <= maxDepth ==> LevelAt(c, k).0.Miss? {
      assert forall k :: 0 <= k <= maxDepth ==> lv(k).0.Miss?;
      ChainOverflowsOutsideDir(Start(c), c.env.dir, lv, maxDepth);
    }
  }

  /** A level's hit is `join(d, pattern)` for a non-glob pattern that exists, or `join(d, entry)`
      for an entry of `d`'s listing, where `d` is the level's directory */
  lemma LevelHitOrigin(env: Env, pats: seq<string>, cwd: string, optCwd: string, mbIn: bool, nocase: bool)
    requires Level(env, pats, cwd, optCwd, mbIn, nocase).0.Hit?
    ensures
      var here := Resolve(env.processCwd, cwd);
      var p := Level(env, pats, cwd, optCwd, mbIn, nocase).0.path;
      (exists i :: 0 <= i < |pats| && !env.isGlob(pats[i]) && p == Join(here, pats[i]) && p in env.fs.present) ||
      (here in env.fs.listing && exists j :: 0 <= j < |env.fs.listing[here]| && p == Join(here, env.fs.listing[here][j]))
  {
    var here := Resolve(env.processCwd, cwd);
    var lit := LiteralScan(pats, |pats|, here, env.fs.present, env.isGlob);
    if lit.None? {
      var entries := env.fs.listing[here];
      var hit := EntryScan(entries, |entries|, here, cwd, pats, Settings(optCwd, mbIn || SwitchesMatchBase(pats, 0), nocase), env.mm);
      JoinName(here, entries[hit.value]);
    }
  }

  /** Every path the search returns exists or is listed, in the start directory or one of its
      ancestors, and every nearer directory was searched without a hit */
  lemma FindupResultOrigin(c: Call, maxDepth: nat, p: Path)
    ensures Walk(c, maxDepth).0 == Found(p) ==> exists k :: (0 <= k <= maxDepth && (forall j :: 0 <= j < k ==> LevelAt(c, j).0.Miss?) &&
      ((exists i :: 0 <= i < |c.pats| && !c.env.isGlob(c.pats[i]) &&
          p == Join(Ancestor(Start(c), k), c.pats[i]) && p in c.env.fs.present) ||
       (Ancestor(Start(c), k) in c.env.fs.listing &&
          exists j :: 0 <= j < |c.env.fs.listing[Ancestor(Start(c), k)]| &&
            p == Join(Ancestor(Start(c), k), c.env.fs.listing[Ancestor(Start(c), k)][j]))))
  {
    if Walk(c, maxDepth).0 != Found(p) {
      return;
    }
    var lv := LevelsOf(c);
    ChainFound(Start(c), c.env.dir, lv, maxDepth, p);
    var k :| 0 <= k <= maxDepth && lv(k).0 == Hit(p) && forall j :: 0 <= j < k ==> Passes(Start(c), c.env.dir, lv, j);
    assert forall j :: 0 <= j < k ==> LevelAt(c, j).0.Miss? by {
      forall j | 0 <= j < k ensures LevelAt(c, j).0.Miss? {
        assert Passes(Start(c), c.env.dir, lv, j);
      }
    }
    LevelDir(c, k);
    LevelHitOrigin(c.env, c.pats, Effective(c.env.processCwd, CwdAt(c, k)), CwdAt(c, k), MatchBaseAt(c, k), c.nocase);
  }

  /** At a level, the last non-glob pattern whose join exists wins, and the listing is not
      consulted for it: any other listing gives the same outcome and the same `matchBase` */
  lemma LevelLiteralFirst(env: Env, pats: seq<string>, cwd: string, optCwd: string, mbIn: bool, nocase: bool,
                          i: nat, other: map<Path, seq<Name>>)
    requires i < |pats| && LiteralHit(pats[i], Resolve(env.processCwd, cwd), env.fs.present, env.isGlob)
    requires forall j :: i < j < |pats| ==> !LiteralHit(pats[j], Resolve(env.processCwd, cwd), env.fs.present, env.isGlob)
    ensures Level(env, pats, cwd, optCwd, mbIn, nocase).0 == Hit(Join(Resolve(env.processCwd, cwd), pats[i]))
    ensures Level(env.(fs := env.fs.(listing := other)), pats, cwd, optCwd, mbIn, nocase) ==
            Level(env, pats, cwd, optCwd, mbIn, nocase)
  {
    var here := Resolve(env.processCwd, cwd);
    var lit := LiteralScan(pats, |pats|, here, env.fs.present, env.isGlob);
    assert lit == Some(i);
  }

  /** `findup(patterns, options)` on an options object whose fields are `st0` and `nocase` */
  function FindupSpec(patterns: Arg, st0: OptState, nocase: bool, env: Env, maxDepth: nat): (r: (Outcome, OptState))
    ensures patterns.Other? ==> r == (Thrown(TypeError(ArgMessage)), st0)
  {
    match patterns
    case Str(s) => Walk(Call(env, [s], st0.cwd, st0.matchBase, nocase), maxDepth)
    case Arr(items) => Walk(Call(env, items, st0.cwd, st0.matchBase, nocase), maxDepth)
    case Other(_) => (Thrown(TypeError(ArgMessage)), st0)
  }

  /** Any array, the empty one included, passes the argument check */
  lemma FindupArrayAccepted(items: seq<string>, st0: OptState, nocase: bool, env: Env, maxDepth: nat)
    ensures var r := FindupSpec(Arr(items), st0, nocase, env, maxDepth).0;
      !r.Thrown? || !r.error.TypeError?
  {
    var c := Call(env, items, st0.cwd, st0.matchBase, nocase);
    ChainNoTypeError(Start(c), c.env.dir, LevelsOf(c), maxDepth);
  }

  /** A string pattern behaves as the one-element array holding it */
  lemma FindupStringAsArray(s: string, st0: OptState, nocase: bool, env: Env, maxDepth: nat)
    ensures FindupSpec(Str(s), st0, nocase, env, maxDepth) == FindupSpec(Arr([s]), st0, nocase, env, maxDepth)
  {
  }

  /** The pattern loop `while (len--)` of one activation */
  method ScanLiterals(opts: Options, pats: seq<string>, here: Path, present: set<Path>, isGlob: string -> bool)
    returns (hit: Option<nat>)
    modifies opts`matchBase
    ensures hit == LiteralScan(pats, |pats|, here, present, isGlob)
    ensures opts.matchBase == (old(opts.matchBase) || SwitchesMatchBase(pats, if hit.Some? then hit.value + 1 else 0))
  {
    var len := |pats|;
    while len > 0
      invariant 0 <= len <= |pats|
      invariant LiteralScan(pats, |pats|, here, present, isGlob) == LiteralScan(pats, len, here, present, isGlob)
      invariant opts.matchBase == (old(opts.matchBase) || SwitchesMatchBase(pats, len))
    {
      len := len - 1;
      SwitchesStep(pats, len);
      var pattern := pats[len];
      if !isGlob(pattern) {
        var file := Join(here, pattern);
        if file in present {
          return Some(len);
        }
      }
      if !HasDoubleStar(pattern) {
        opts.matchBase := true;
      }
    }
    return None;
  }

  /** The entry loop `while (flen--)` of one activation */
  method ScanEntries(files: seq<Name>, here: Path, cwd: string, pats: seq<string>, s: Settings,
                     mm: (Path, seq<string>, Settings) -> bool) returns (hit: Option<nat>)
    ensures hit == EntryScan(files, |files|, here, cwd, pats, s, mm)
  {
    var flen := |files|;
    while flen > 0
      invariant 0 <= flen <= |files|
      invariant EntryScan(files, |files|, here, cwd, pats, s, mm) == EntryScan(files, flen, here, cwd, pats, s, mm)
    {
      flen := flen - 1;
      var fp := Join(here, files[flen]);
      JoinName(here, files[flen]);
      if JoinedDirnameIsDot(cwd, files[flen]) {
        break;
      }
      if mm(fp, pats, s) {
        return Some(flen);
      }
    }
    return None;
  }

  /** One activation's search of its directory: the pattern loop, `readdirSync` and the
      entry loop. `cwd` is the local `cwd` string. */
  method SearchLevel(opts: Options, pats: seq<string>, cwd: string, env: Env) returns (lv: LevelOutcome)
    modifies opts`matchBase
    ensures (lv, opts.matchBase) == Level(env, pats, cwd, opts.cwd, old(opts.matchBase), opts.nocase)
  {
    var here := Resolve(env.processCwd, cwd);
    var lit := ScanLiterals(opts, pats, here, env.fs.present, env.isGlob);
    if lit.Some? {
      return Hit(Join(here, pats[lit.value]));
    }
    if here !in env.fs.listing {
      return Unreadable(here);
    }
    var files := env.fs.listing[here];
    var hit := ScanEntries(files, here, cwd, pats, Settings(opts.cwd, opts.matchBase, opts.nocase), env.mm);
    if hit.Some? {
      JoinName(here, files[hit.value]);
      return Hit(Join(here, files[hit.value]));
    }
    return Miss;
  }

  /** One activation of `findup` on the `depth`-th directory: the level search, then either
      a return or the ascent, which writes the parent into `opts.cwd` */
  method Activation(opts: Options, pats: seq<string>, env: Env, ghost c: Call, ghost start: Path,
                    ghost lv: Levels, ghost cw: nat -> string, ghost mb: nat -> bool,
                    ghost maxDepth: nat, ghost depth: nat)
    returns (done: bool, r: Outcome)
    requires c == Call(env, pats, c.cwd0, c.matchBase0, c.nocase) && start == Start(c) && Tracks(c, lv, cw, mb)
    requires depth <= maxDepth && opts.cwd == cw(depth) && opts.matchBase == mb(depth) && opts.nocase == c.nocase
    modifies opts
    ensures opts.nocase == old(opts.nocase)
    ensures done ==> Chain(start, env.dir, lv, maxDepth, depth) == (r, depth)
    ensures done ==> opts.cwd == cw(depth) && opts.matchBase == lv(depth).1
    ensures !done ==> opts.cwd == cw(depth + 1) && opts.matchBase == mb(depth + 1)
    ensures !done ==> Chain(start, env.dir, lv, maxDepth, depth) == Chain(start, env.dir, lv, maxDepth, depth + 1)
  {
    assert opts.cwd == CwdAt(c, depth) && opts.matchBase == MatchBaseAt(c, depth);
    var cwd := if opts.cwd != "" then opts.cwd else Format(env.processCwd);
    var lvl := SearchLevel(opts, pats, cwd, env);
    assert (lvl, opts.matchBase) == LevelAt(c, depth) == lv(depth);
    ChainAt(start, env.dir, lv, maxDepth, depth);
    match lvl {
      case Hit(p) => return true, Found(p);
      case Unreadable(d) => return true, Thrown(ReaddirError(d));
      case Miss =>
    }
    var up := Parent(Resolve(env.processCwd, cwd));
    LevelDir(c, depth);
    AncestorStep(Start(c), depth);
    if up == env.dir {
      return true, NotFound;
    }
    LevelMissMatchBase(c, depth);
    opts.cwd := Format(up);
    assert opts.cwd == CwdAt(c, depth + 1) && opts.matchBase == MatchBaseAt(c, depth + 1);
    return false, NotFound;
  }

  /** The recursion of `findup` as a loop over the activations, `depth` being the current one,
      on an options object that holds the call's initial fields */
  method Ascend(opts: Options, pats: seq<string>, env: Env, ghost c: Call, ghost start: Path,
                ghost lv: Levels, ghost cw: nat -> string, ghost mb: nat -> bool, maxDepth: nat)
    returns (r: Outcome)
    requires c == Call(env, pats, c.cwd0, c.matchBase0, c.nocase) && start == Start(c) && Tracks(c, lv, cw, mb)
    requires opts.cwd == cw(0) && opts.matchBase == mb(0) && opts.nocase == c.nocase
    modifies opts
    ensures opts.nocase == old(opts.nocase)
    ensures (r, OptState(opts.cwd, opts.matchBase)) == Run(start, env.dir, lv, cw, mb, maxDepth)
  {
    var depth := 0;
    while depth <= maxDepth
      invariant opts.cwd == cw(depth) && opts.matchBase == mb(depth) && opts.nocase == c.nocase
      invariant Chain(start, env.dir, lv, maxDepth, 0) == Chain(start, env.dir, lv, maxDepth, depth)
      decreases maxDepth + 1 - depth
    {
      var done;
      done, r := Activation(opts, pats, env, c, start, lv, cw, mb, maxDepth, depth);
      if done {
        return;
      }
      depth := depth + 1;
    }
    return Thrown(StackOverflow);
  }

  /** `findup(patterns, options)`; `options == null` stands for a missing options argument,
      for which the search uses a fresh `{}` */
  method Findup(patterns: Arg, options: Options?, env: Env, maxDepth: nat) returns (r: Outcome)
    modifies options
    ensures options != null ==>
      (r, OptState(options.cwd, options.matchBase)) ==
      FindupSpec(patterns, OptState(old(options.cwd), old(options.matchBase)), old(options.nocase), env, maxDepth)
    ensures options != null ==> options.nocase == old(options.nocase)
    ensures options == null ==> r == FindupSpec(patterns, OptState("", false), false, env, maxDepth).0
  {
    if !patterns.Str? && !patterns.Arr? {
      return Thrown(TypeError(ArgMessage));
    }
    var pats := if patterns.Str? then [patterns.s] else patterns.items;
    var opts: Options;
    if options == null {
      opts := new Options.Empty();
    } else {
      opts := options;
    }
    ghost var c := Call(env, pats, opts.cwd, opts.matchBase, opts.nocase);
    TracksOf(c);
    r := Ascend(opts, pats, env, c, Start(c), LevelsOf(c), CwdsOf(c), MatchBasesOf(c), maxDepth);
  }
}
