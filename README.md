# findup-sync: the two ascending searches

The findup-sync package finds the nearest file that matches one or more
patterns. It looks in a start directory first and then in each directory
above it. The repository holds two independent versions of this search, and
this project models both against a snapshot of the filesystem.

- **`findup(patterns, options)`** (index.js) checks the argument and then
  works one directory at a time:
  - it tries the patterns from last to first, and returns `join(cwd, pattern)`
    for the first non-glob pattern that exists;
  - every pattern without `**` switches `matchBase` on in the options object;
  - it reads the directory and tries its entries from last to first with the
    matcher;
  - on a miss it writes the parent directory into `opts.cwd` and calls itself.

  It returns null only when the parent equals `dir`, the process working
  directory when the module was loaded. It writes the caller's options object.
- **The exported function** of lib/findup-sync.js wraps a non-array pattern
  in an array and derives its own glob options, so the caller's object is
  never written. At each level it concatenates the glob results of all
  patterns, removes duplicates and returns the first file joined to the
  directory. Otherwise it ascends, and it stops after the root.

Modules:
- `Paths`: absolute paths are sequences of names with the root as `[]`. It
  holds the parts of Node's `path` the searches use: `join`, `resolve`, the
  parent, formatting back to a string, and the relative normalisation behind
  `dirname(fp) === '.'`.
- `Js`: the caller's values. This is the `patterns` argument (a string, an
  array of strings or anything else) and the options object, a class whose
  `cwd` and `matchBase` fields `findup` writes.
- `Findup`: index.js. The methods `ScanLiterals`, `ScanEntries`,
  `SearchLevel`, `Activation`, `Ascend` and `Findup` follow the code's loops
  and writes. The recursion becomes a loop over activations. The functions
  `LiteralScan`, `EntryScan`, `Level`, `Chain`, `Walk` and `FindupSpec` state
  what those methods compute, and the lemmas state the properties.
- `FindupSync`: lib/findup-sync.js. The methods `SearchDir`, `Ascend` and
  `FindupSync` follow the do/while loop. `LevelFiles` (map, flatten, uniq),
  `SyncFrom` and `FindupSyncSpec` state what they compute.

The `findup` model takes these inputs as parameters:
- the filesystem snapshot: the paths `existsSync` reports, and a listing for
  each directory `readdirSync` can read;
- `dir`, and the process working directory at call time;
- `isGlob` and the micromatch predicate;
- `maxDepth`, the number of nested calls the JavaScript stack allows.

Beyond `maxDepth` the search ends in a stack overflow. The code has no stop at
the root, so none is added. Here "the ascent reaches `dir`" means that `dir`
is the start's parent or a directory above it (`dir <= Parent(start)`). The
root is its own parent, so when `dir` is the root, every start reaches it,
the root included. Started where the ascent does not reach `dir`, the search
never returns null and, with nothing to find, exhausts the stack
(`FindupOutsideDir`). Such starts are `dir` itself when it is not the root,
a directory above `dir`, and a directory on another branch. Started where the
ascent reaches `dir`, the search ends within the stack when it has room for
the levels up to `dir` (`FindupStopsBelowDir`).
At the root with `dir` the root, a miss returns null (`RootSearchedWhenDirIsRoot`).

The TypeError message is the one index.js:30 throws, `findup expects …`,
where test/test.js:22 expects `findup-sync expects …`; the model follows the
code.

A directory `readdirSync` cannot read ends the search with that error,
because index.js:63 does not catch it: the level is not skipped.

## Model

| member | source | states |
|---|---|---|
| Paths.Ancestor | index.js:82 | the directory k ascents up: a prefix of the start, k names shorter, the root once k reaches the depth; also lib/findup-sync.js:45 (steps in `AncestorStep`) |
| Paths.Parent | index.js:82 | `resolve(cwd, '..')` drops the last name, and the root is its own parent |
| Paths.ResolveFormat | index.js:82-89 | resolving the string written into `opts.cwd` gives back the directory it names |
| Paths.JoinName | index.js:68 | joining a listed entry to a directory appends it as one more name |
| Paths.DirnameDotUniform | index.js:70-71 | for any entry, `dirname(join(cwd, entry)) === '.'` holds exactly when `cwd` is a relative spelling of the working directory itself, whatever the entry |
| Paths.AncestorBelowParent | index.js:82-85 | every directory reached after one or more ascents lies at or above the start's parent |
| Paths.Join | index.js:52 | `path.join` of a directory and a relative string: each piece of the string normalised onto the directory; also the joins at index.js:68 and lib/findup-sync.js:41 (properties in `JoinName`) |
| Paths.Resolve | index.js:39 | `path.resolve(s)`: an absolute string normalised from the root, a relative one from the process working directory; also lib/findup-sync.js:28 (properties in `ResolveFormat`, `InitialCwd`) |
| Paths.Format | index.js:82 | the absolute string `path.resolve` returns for a directory, always starting with `/` |
| Paths.JoinedDirnameIsDot | index.js:71 | `dirname(join(cwd, entry)) === '.'`: the join is relative and has at most one name once normalised (characterised by `DirnameDotUniform`) |
| Js.Options.Empty | index.js:38 | the object `{}` used when no options are passed has no `cwd` and `matchBase` off |
| Findup.HasDoubleStar | index.js:58 | the `/\*\*/` test on a pattern (characterised by `HasDoubleStarIff`) |
| Findup.HasDoubleStarIff | index.js:58 | the `**` test holds exactly when two consecutive `*` occur somewhere in the pattern |
| Findup.SwitchesMatchBase | index.js:58-60 | some pattern from index `from` on lacks `**`, so the pattern loop writes `matchBase = true` (characterised by `SwitchesStep`, `HasDoubleStarIff`) |
| Findup.LiteralHit | index.js:47-53 | a pattern is not a glob and its join with the directory exists (properties in `LiteralScan`, `LevelHitOrigin`) |
| Findup.SwitchesStep | index.js:58-60 | a pattern from index j on switches `matchBase` on exactly when pattern j lacks `**` or a later one does |
| Findup.LiteralScan | index.js:43-56 | the pattern loop returns the highest index whose non-glob pattern joined to the directory exists, and no higher index is such a hit; with no hit, none is |
| Findup.EntryScan | index.js:63-78 | the entry loop finds nothing when the dirname test stops it; otherwise it returns the highest-indexed entry the matcher accepts, with none above it, or nothing when no entry is accepted |
| Findup.Level | index.js:39-78 | one activation's level search: a literal hit, an unreadable directory, an accepted entry or a miss, with the new `matchBase` (properties in `LevelHitOrigin`, `LevelLiteralFirst`, `LevelMissMatchBase`) |
| Findup.Effective | index.js:39 | `opts.cwd || process.cwd()`: the option when it is non-empty, else the process working directory as a string (properties in `LevelDir`) |
| Findup.Start | index.js:39 | the directory the first activation searches: the effective `cwd` resolved (properties in `LevelDir`) |
| Findup.CwdAt | index.js:88 | `opts.cwd` on entry to activation k: the caller's value for the first, the formatted k-th ancestor of the start written by the one before otherwise (properties in `LevelDir`, `FindupFound`) |
| Findup.MatchBaseAt | index.js:58-60 | `opts.matchBase` on entry to activation k: the caller's value for the first, that value or-ed with the pattern loop's switch afterwards (properties in `LevelMissMatchBase`, `LevelKeepsMatchBase`) |
| Findup.LevelAt | index.js:39-78 | the level search of activation k, run with the `cwd` and `matchBase` that activation finds on entry (properties in `LevelDir`, `LevelMissMatchBase`, `LevelKeepsMatchBase`) |
| Findup.LevelDir | index.js:39 | each activation searches the start directory's k-th ancestor, whether `cwd` comes from the options, from `process.cwd()` or from the written parent |
| Findup.LevelMissMatchBase | index.js:58-61 | after a miss at a level, `matchBase` is what every pattern has been through the pattern loop makes it |
| Findup.LevelKeepsMatchBase | index.js:58-60 | from the second activation on, the level search leaves `matchBase` as the first miss set it |
| Findup.Chain | index.js:80-89 | the activations from k on: their outcome and the activation that produced it, a stack overflow beyond `maxDepth` (properties in `ChainAt` to `ChainNoTypeError`) |
| Findup.Run | index.js:80-89 | the outcome of the activations and the final `cwd` and `matchBase`, those the activation that produced the outcome left (properties in `FindupFound` to `FindupResultOrigin`) |
| Findup.Walk | index.js:38-89 | the whole search of one call after the argument check: its outcome and the final `cwd` and `matchBase` of the options object (properties in `FindupFound` to `FindupResultOrigin`) |
| Findup.ChainAt | index.js:80-89 | one activation: a hit is returned, an unreadable directory throws, a miss whose parent is `dir` returns null, and any other miss hands over to the next activation |
| Findup.Passes | index.js:82-85 | activation k missed and the parent it moves to is not `dir`, so it recurses (properties in `ChainAt`, `ChainSkip`) |
| Findup.ChainSkip | index.js:82-89 | activations that miss without reaching `dir` pass the search on unchanged |
| Findup.ChainEnd | index.js:82-89 | the search ends at one activation, every activation before it passed the search on and that one did not; it ends within the stack exactly when it does not overflow |
| Findup.ChainFound | index.js:52-54 | a path is returned exactly when some level within the stack hits after every nearer level missed without reaching `dir`, and then the search ends at that level |
| Findup.EndsAtDir | index.js:82-85 | every activation before e passed and activation e missed with `dir` as its parent, so it returns null (characterised in `ChainNull`, `FindupNull`) |
| Findup.ChainNull | index.js:84-85 | null is returned exactly when a level misses and its parent is `dir` after every nearer level passed |
| Findup.ChainNullSkipsDir | index.js:82-85 | when null is returned, none of the directories searched was `dir`, unless the search started at the root and `dir` is the root |
| Findup.RootSearchedWhenDirIsRoot | index.js:82-85 | started at the root with `dir` the root, the root is searched, and a miss there returns null |
| Findup.ChainStopsBelowDir | index.js:82-89 | started where the ascent reaches `dir` (`dir` is the start's parent or above it, the root being its own parent), with room for the levels up to it, the stack never overflows |
| Findup.ChainNeverNullOutsideDir | index.js:85 | started where the ascent does not reach `dir` (at `dir` when `dir` is not the root, above it, or on another branch), the search never returns null |
| Findup.ChainOverflowsOutsideDir | index.js:82-89 | started where the ascent does not reach `dir`, with every level missing, the search overflows the stack |
| Findup.ChainNoTypeError | index.js:29-31 | the ascent never raises a TypeError |
| Findup.TracksOf | index.js:88-89 | the level outcomes and options fields of a call are the ones its activations see |
| Findup.FindupMatchBase | index.js:58-60 | on the object `opts` of index.js:38, the final `matchBase` is true only if it was true already or a pattern lacks `**`; it equals what the first level's pattern loop left: set by any pattern without `**` after a literal miss, and only by the patterns after the hit otherwise |
| Findup.FindupFound | index.js:52-89 | a path is returned exactly when a level hits after every nearer level passed the search on; `opts.cwd` is then that level's entry value: the caller's `cwd` left as it was for a hit at the first level, the formatted directory above it |
| Findup.FindupNull | index.js:82-88 | null is returned exactly when the ascent moves into `dir` after every level up to there missed; the start directory is then `dir` only when both are the root |
| Findup.FindupStopsBelowDir | index.js:82-89 | a search started where the ascent reaches `dir`, the directory captured at index.js:11, ends without overflow when the stack has room for the levels up to it |
| Findup.FindupOutsideDir | index.js:82-89 | a search started where the ascent does not reach `dir` (at `dir` when `dir` is not the root, above it, or on another branch) never returns null, and with no hit it exhausts the stack |
| Findup.LevelHitOrigin | index.js:68-76 | a level's hit is an existing join of the directory with a non-glob pattern, or the join with an entry of the directory's listing |
| Findup.FindupResultOrigin | index.js:43-89 | every returned path is an existing literal join or a listed entry joined to the start directory or one of its ancestors, and every nearer directory missed |
| Findup.LevelLiteralFirst | index.js:43-63 | the last non-glob pattern whose join exists is returned, and the listing is not consulted: any other listing gives the same outcome and `matchBase` |
| Findup.FindupSpec | index.js:28-31 | a `patterns` value that is neither a string nor an array throws the TypeError before any filesystem access and leaves the options untouched |
| Findup.FindupArrayAccepted | index.js:29 | any array, the empty one included, passes the argument check |
| Findup.FindupStringAsArray | index.js:33-36 | a string pattern behaves exactly as the one-element array holding it |
| Findup.ScanLiterals | index.js:40-61 | the pattern loop returns `LiteralScan`'s index, and `matchBase` becomes true when some pattern it went through lacks `**` |
| Findup.ScanEntries | index.js:63-78 | the entry loop returns `EntryScan`'s index |
| Findup.SearchLevel | index.js:39-78 | one activation's level search yields `Level`'s outcome and `matchBase` |
| Findup.Activation | index.js:39-89 | after an activation the search ends there with an outcome and options fields, or the next activation has its entry fields and the same outcome ahead |
| Findup.Ascend | index.js:82-89 | the recursion run as a loop yields the search's outcome and final options fields, and leaves `nocase` unchanged |
| Findup.Findup | index.js:28-89 | with an options object, the outcome and its final `cwd` and `matchBase` are those of `FindupSpec`; without one, the outcome of the search from `{}` |
| FindupSync.Patterns | lib/findup-sync.js:23 | an array becomes its items in order; any other value becomes a one-element array, with no error |
| FindupSync.InitialGlobOptions | lib/findup-sync.js:26-28 | the derived options have `maxDepth` 1 and inherit `matchBase` and `nocase`; they are computed without writing the caller's object |
| FindupSync.InitialCwd | lib/findup-sync.js:28 | without a `cwd` option the search starts in the process working directory, and an absolute `cwd` does not depend on it |
| FindupSync.GlobEach | lib/findup-sync.js:33-35 | one glob result per pattern, in pattern order |
| FindupSync.Flatten | lib/findup-sync.js:36 | a file is in the flattened list exactly when it is in some pattern's results |
| FindupSync.Uniq | lib/findup-sync.js:37 | the same files without duplicates, and the first file kept |
| FindupSync.FlattenFirst | lib/findup-sync.js:36 | the flattened list starts with the first file of the first non-empty result |
| FindupSync.LevelHit | lib/findup-sync.js:33-40 | some pattern has a glob match in the level's directory (characterised by `LevelFilesNonEmpty`, `ResultsOfHit`) |
| FindupSync.LevelFiles | lib/findup-sync.js:33-37 | one level's files: the glob results of every pattern, concatenated in pattern order, without duplicates (properties in `LevelFilesNonEmpty`, `LevelFilesFirst`) |
| FindupSync.AtLevel | lib/findup-sync.js:45 | the glob options of iteration k: only `cwd` has moved, to the k-th ancestor (properties in `SyncFound`, `SyncResultLevel`) |
| FindupSync.LevelResult | lib/findup-sync.js:39-42 | one level's result: its first file joined to its directory, or nothing when it has no files |
| FindupSync.LevelFilesNonEmpty | lib/findup-sync.js:33-40 | a level yields files exactly when some pattern matches there |
| FindupSync.LevelFilesFirst | lib/findup-sync.js:33-41 | a level's first file is the first match of the first pattern that has one |
| FindupSync.LevelHitOrderFree | lib/findup-sync.js:33-40 | whether a level yields files depends on the set of patterns, not their order |
| FindupSync.AncestorFixed | lib/findup-sync.js:44-47 | the parent equals the directory just searched exactly at the root |
| FindupSync.ResultsOf | lib/findup-sync.js:33-42 | what each iteration's level returns, by iteration number, from the options at that level (properties in `ResultsOfHit`) |
| FindupSync.SyncFrom | lib/findup-sync.js:30-50 | the iterations from k on: the first level result, or null after the root (properties in `SyncAt` to `SyncOrderFree`) |
| FindupSync.FindupSyncSpec | lib/findup-sync.js:21-51 | the exported function's result: the search from the resolved start with the wrapped patterns |
| FindupSync.SyncAt | lib/findup-sync.js:40-47 | one iteration: files are returned, the root ends with null, any other directory passes on to its parent |
| FindupSync.SyncSkip | lib/findup-sync.js:43-47 | iterations that find nothing pass the search on unchanged |
| FindupSync.EmptyFrom | lib/findup-sync.js:47-50 | when no level from k up to the root yields files, the result is null |
| FindupSync.NonEmptyFrom | lib/findup-sync.js:40-42 | a non-null result means some level up to the root yielded files |
| FindupSync.ResultsOfHit | lib/findup-sync.js:40 | a level returns a path exactly when some pattern matches there |
| FindupSync.FirstHitLevel | lib/findup-sync.js:30-47 | level k, at most the root, is the first level from the start at which some pattern matches (properties in `SyncFound`, `FirstHitExists`, `SyncResultLevel`) |
| FindupSync.SyncFound | lib/findup-sync.js:31-47 | when level k is the first with a match, the result is that level's first file joined to its directory |
| FindupSync.FirstHitExists | lib/findup-sync.js:31-47 | if some level matches, a first matching level exists |
| FindupSync.SyncNull | lib/findup-sync.js:47-50 | null is returned exactly when no level from the start up to the root matches |
| FindupSync.SyncResultLevel | lib/findup-sync.js:41 | a non-null result is the first file of the first matching level joined to that level's directory |
| FindupSync.SyncOrderFree | lib/findup-sync.js:31-47 | reordering the patterns changes neither whether a result exists nor the level it comes from |
| FindupSync.SoleMatchAtStart | lib/findup-sync.js:33-41 | when exactly one pattern matches in the start directory, with one name, the result is that name there, wherever the pattern stands |
| FindupSync.NearestDirBeatsPatternOrder | test/findup-sync_cwd_test.js:31-32 | with `bar.txt` and no `f*.txt` match in the start directory, both pattern orders return `bar.txt` there |
| FindupSync.FlattenSnoc | lib/findup-sync.js:33-36 | appending one more pattern's matches to the list of results appends them to the flattened list |
| FindupSync.SearchDir | lib/findup-sync.js:33-42 | the loop asking the glob engine for each pattern in turn builds the flattened list (invariant: the concatenation of the results of the patterns so far); `uniq` and the join then give that level's result, which is present exactly when some pattern matches there |
| FindupSync.Ancestors | lib/findup-sync.js:30-47 | the directories visited: the start and its ancestors, nearest first, all different |
| FindupSync.AncestorsSnoc | lib/findup-sync.js:44-45 | visiting one more directory appends the next ancestor |
| FindupSync.Missed | lib/findup-sync.js:33-47 | none of the first n iterations returned a file (used in `Ascend`, `FindupSync`) |
| FindupSync.Ascend | lib/findup-sync.js:30-50 | the loop returns `SyncFrom`'s result; it visits the start and its ancestors once each, nearest first; every directory before the last one visited found nothing, a returned path is the last directory's result, and a null comes only after the root and every directory up to it found nothing |
| FindupSync.FindupSync | lib/findup-sync.js:21-51 | the exported function returns `FindupSyncSpec`'s result and writes nothing it is given; from the resolved start it visits directories as `Ascend` does: the result comes from the last directory visited, every earlier one found nothing, and null means no directory up to the root found anything |

## Left out

- Glob engines: `isGlob`, micromatch and `glob.sync` are foreign libraries and are parameters of the model. So are the meanings of `nocase`, `matchBase` and `**` to them; only the `**` test that decides the `matchBase` write is defined.
- Findup.EntryScan: the matcher is given the absolute location of `join(cwd, entry)`. With a relative `cwd` the code passes a relative string.
- Findup.Findup: returned paths are absolute locations. With a relative `cwd` the code returns `join(cwd, …)` as a relative string naming the same file.
- Js.Options: the options argument is null or an object whose `cwd` is a string and whose `matchBase` is a boolean. A truthy primitive passed as options makes `opts.matchBase = true` (index.js:59, strict mode) and `Object.create(options || {})` (lib/findup-sync.js:26) throw a TypeError, and a truthy non-string `cwd` makes `path.join`/`path.resolve` throw. These are JavaScript type errors on values outside the documented argument types, so they are not modelled.
- Paths.Join: a trailing `/` is dropped with the empty piece after it. `path.join` keeps it, so for a literal pattern such as `foo/` in index.js:52-53 `existsSync` then also requires `foo` to be a directory, and the returned string ends in `/`. The snapshot does not tell files from directories, so `Findup.Level` and `Findup.LevelHitOrigin` treat `foo/` as `foo`.
- Js.Arg: array elements are strings. An array holding other values is not modelled.
- The real filesystem and process state. `existsSync`, `readdirSync`, `process.cwd()` and `dir` are a snapshot and parameters.
- The stack limit of a JavaScript engine. It is the parameter `maxDepth`, and a RangeError is the `StackOverflow` error.
- The other option properties. They are passed through unchanged, and `nocase` stands for all of them.
- `glob.sync` throwing on a non-string pattern in lib/findup-sync.js. The glob engine is a total parameter.
- Tilde and home-directory expansion expected by test/findup.js. No code in either search does it.
- Windows paths. `Paths` follows POSIX `path`: `/` separators and a single root. Backslash separators, drive-letter roots and UNC paths of the win32 `path` are not modelled.
- Symbolic links and case-insensitive filesystems. A path names one location.
