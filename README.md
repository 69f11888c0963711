# incognito-dev, modelled in Dafny

`incognito-dev` is a command-line wrapper around a project's dev server. It
picks the package manager from the lock files in the working directory. It
checks that `package.json` defines a `dev` script and spawns that script. It
then watches the server's stdout and stderr until a chunk of output names a
local port, and opens `http://localhost:<port>` once in an incognito browser
window.

This project models the three pieces of decision logic in `bin/index.js`:

- **Package manager and dev command** (`package_manager.dfy`, module
  `PackageManager`). `getPackageManager` walks the lock files in priority
  order: `pnpm-lock.yaml`, then `yarn.lock`, then `package-lock.json`. It
  defaults to npm. `getDevCommand` maps a manager name to `pnpm dev`,
  `yarn dev` or `npm run dev`. The working directory is a `set<string>` of the
  file names present in it.
- **Setup checks** (`setup.dfy`, module `Setup`). A run stops with exit status
  1, before anything is spawned, when `package.json` is absent or when
  `scripts` or `scripts.dev` is missing or falsy. The manifest is a parsed JSON
  value, and JavaScript truthiness is written out.
- **Output watcher** (`url_patterns.dfy` and `output_watcher.dfy`, modules
  `UrlPatterns` and `OutputWatcher`). The five URL regular expressions are
  written as token lists. `String.prototype.match` is modelled for the
  constructs they use: literal text, greedy `\s+`, a greedy optional
  character, and the greedy capture `(\d+)`. Matching follows a backtracking
  engine: the leftmost start position wins, and at each start the
  alternatives are tried in the engine's order. The shared `browserLaunched`
  flag is the field `launched` of class `Watcher`. Its handler `OnChunk`
  serves both streams, because the stdout and stderr handlers are the same
  code. Each call runs to completion, as callbacks do on the event loop. A
  browser launch is recorded as a URL appended to the ghost log `launches`.

`Step` and `Replay` specify the watcher as functions. `Watcher.Valid()` ties
the object's state to `Replay` of every chunk it has handled. The lemmas about
`Replay` carry the run-wide guarantees: at most one launch, the first matching
chunk decides the URL, and there is no buffering across chunks.

The first pattern, `localhost:(\d+)`, matches every chunk that the third,
fourth or fifth pattern matches. Those three therefore never decide the port
(`UrlPatterns.LaterPatternsImplyFirst`, `OutputWatcher.Detect`). On one chunk,
the `Local:` pattern alone can capture a different port than
`localhost:(\d+)` does (`UrlPatterns.BannerPatternAloneDisagrees`). The
handler always uses the port that `localhost:(\d+)` captures.

## Model

| member | source | states |
|---|---|---|
| `PackageManager.FirstPresent` | bin/index.js:20-22 | The result is the manager of the first lock-file entry whose file is present; no earlier entry's file is present; None exactly when no entry's file is present. |
| `PackageManager.PackageManagerOf` | bin/index.js:14-24 | The manager `getPackageManager` returns is always pnpm, yarn or npm. It is npm by default, or the manager of a lock-file entry whose file is present. |
| `PackageManager.GetPackageManager` | bin/index.js:14-24 | The loop with early return yields the manager of the first present lock file in priority order, or `npm` when none is present. |
| `PackageManager.ManagerPriority` | bin/index.js:15-23 | The manager is pnpm iff `pnpm-lock.yaml` is present. It is yarn iff `yarn.lock` is present and `pnpm-lock.yaml` is not. It is npm iff neither is present, whether or not `package-lock.json` is. |
| `PackageManager.DevCommand` | bin/index.js:26-33 | A command exists exactly for the names pnpm, yarn and npm (any other key gives `undefined`). Each command starts with the manager's name and a space, and ends with `dev`. |
| `PackageManager.ResolvedDevCommand` | bin/index.js:14-33 | Composed with the resolved manager, `getDevCommand` always gives a command. It is `pnpm dev`, `yarn dev` or `npm run dev` exactly under the lock-file conditions above. |
| `Setup.Field` | bin/index.js:93 | The lookups `pkg.scripts` and `scripts.dev` find a value exactly when the value is an object that has that own key. The value found is the field stored under that key. Every other kind of value gives `undefined`. |
| `Setup.Truthy` | bin/index.js:93 | JavaScript's `!x` on a parsed JSON value: the falsy values are exactly `undefined`, `null`, `false`, `0` and the empty string. |
| `Setup.CheckSetup` | bin/index.js:86-97 | The checks run in the script's order. A missing `package.json` comes first. A `null` manifest comes next, because reading `pkg.scripts` on it throws. Last comes a missing or falsy `scripts` or `scripts.dev`. A later error is reported only when the earlier checks pass. Passing requires both `scripts` and `scripts.dev` to be truthy. |
| `Setup.SetupAcceptedIff` | bin/index.js:86-97 | The checks pass iff `package.json` is present, the manifest is an object, its `scripts` is an object, and `scripts.dev` is present and truthy. Missing manifest and null manifest are each told apart exactly. |
| `Setup.EmptyDevScriptRejected` | bin/index.js:93-96 | An empty-string `dev` script gets the same rejection as an absent one: the missing-dev-script error. |
| `Setup.Plan` | bin/index.js:83-99 | The run exits (status 1, no spawn) iff a setup check fails. Otherwise it spawns the resolved manager's dev command, which is one of the three command strings. |
| `UrlPatterns.DigitRun` | bin/index.js:131-137 | The capture `(\d+)` taken at a position is the maximal run of ASCII digits there: a slice of the text, all digits, followed by the end or a non-digit. |
| `UrlPatterns.SpaceRun` | bin/index.js:134-135 | `\s+` can span exactly the maximal run of JavaScript white-space characters at a position. |
| `UrlPatterns.MatchEnd` | bin/index.js:131-137 | A pattern tried at a start position succeeds only at a later position holding a digit, where its capture begins. |
| `UrlPatterns.SpacesThen` | bin/index.js:134-135 | Backtracking over `\s+` (longest first, at least one character) succeeds only past the start and before a digit. |
| `UrlPatterns.FirstMatchFrom` | bin/index.js:148 | The start position found is the leftmost one from which the pattern matches; None means no position matches. |
| `UrlPatterns.Exec` | bin/index.js:148-150 | `output.match(pattern)[1]` exists iff the pattern matches at some position. The captured port is a non-empty run of digits. |
| `UrlPatterns.ExecText` | bin/index.js:132-133 | For a one-literal pattern, the port is the digit run after the leftmost occurrence of the literal that a digit follows. |
| `UrlPatterns.ExecTextNone` | bin/index.js:132-133 | A one-literal pattern fails on a chunk iff no occurrence of the literal is followed by a digit. |
| `UrlPatterns.MatchEndEndsWith` | bin/index.js:134-136 | When a pattern ending in a literal matches, the text just before its capture is that literal. |
| `UrlPatterns.EndsWithLocalhost` | bin/index.js:132-136 | A pattern whose last literal ends in `localhost:` matches a chunk only if `localhost:(\d+)` matches it too. |
| `UrlPatterns.LaterPatternsImplyFirst` | bin/index.js:131-137 | Whenever pattern 3, 4 or 5 matches a chunk, pattern 1 matches it as well. |
| `UrlPatterns.BannerPatternAloneDisagrees` | bin/index.js:132-134 | On `localhost:1 Local: http://localhost:2`, pattern 1 captures `1` and the `Local:` pattern captures `2`. |
| `OutputWatcher.DetectFrom` | bin/index.js:147-156 | The patterns are tried in order. The result names the first one that matches, with its captured port, and every earlier one fails. None means every pattern fails. |
| `OutputWatcher.Detect` | bin/index.js:147-156 | The pattern used for a chunk is always the first or the second, and the port is a non-empty run of digits. |
| `OutputWatcher.LocalhostWins` | bin/index.js:147-156 | When `localhost:` is followed by a digit in a chunk, the port is the digit run after its leftmost such occurrence, even if `127.0.0.1:` comes earlier. |
| `OutputWatcher.LoopbackFallback` | bin/index.js:147-156 | Without `localhost:<digit>`, the port is the digit run after the leftmost `127.0.0.1:` that a digit follows. |
| `OutputWatcher.NothingDetected` | bin/index.js:146-158 | A chunk yields nothing iff neither `localhost:` nor `127.0.0.1:` is followed by a digit anywhere in it. |
| `OutputWatcher.Step` | bin/index.js:146-158 | The handler for one chunk. When the flag is set, the state is unchanged. Otherwise the flag becomes set exactly when some pattern matches, and exactly then one URL is appended to the launch log. The earlier log is kept as a prefix. |
| `OutputWatcher.Replay` | bin/index.js:139-180 | The handler applied to a run's chunks in arrival order. The flag never goes back to clear, the earlier log is kept as a prefix, and the log grows by at most one URL (by none when the flag was already set). A URL is appended only together with setting the flag. |
| `OutputWatcher.ReplaySnoc` | bin/index.js:142-180 | Handling one more chunk after a sequence of chunks is one more step of the handler. |
| `OutputWatcher.LaunchedIsFinal` | bin/index.js:146-154 | Once the flag is set, no chunk from either stream changes the flag or launches anything. |
| `OutputWatcher.AtMostOneLaunch` | bin/index.js:139-158 | Over any sequence of chunks at most one URL is launched, and the flag is set iff one has been. |
| `OutputWatcher.FirstDetectionLaunches` | bin/index.js:146-156 | The first chunk in which a pattern matches launches the URL built from that chunk's port, and nothing later changes it. |
| `OutputWatcher.NoDetectionNoLaunch` | bin/index.js:143-158 | Nothing is launched and the flag stays clear iff no chunk on its own matches a pattern. |
| `OutputWatcher.LaunchedUrlsAreLocalhost` | bin/index.js:150-151 | Every launched URL is `http://localhost:` followed by a non-empty run of digits, whichever pattern found the port. |
| `OutputWatcher.LocalUrlIsLocalhost` | bin/index.js:150 | The URL built from a detected port is `http://localhost:` followed by that port's digits. |
| `OutputWatcher.DigitsAnnounceNothing` | bin/index.js:146-158 | A chunk made only of digits matches no pattern. |
| `OutputWatcher.SplitUrlLaunchesNothing` | bin/index.js:143-148 | `localhost:` in one chunk and its digits in the next launch nothing: there is no buffering across chunks. |
| `OutputWatcher.WholeUrlLaunches` | bin/index.js:143-153 | `localhost:<digits>` in one chunk launches `http://localhost:<digits>`. |
| `OutputWatcher.Watcher.constructor` | bin/index.js:139 | A new watcher has its flag clear, has seen no chunk and has launched nothing. |
| `OutputWatcher.Watcher.OnChunk` | bin/index.js:142-159 | One chunk from either stream goes through the handler. If the flag was set, nothing changes. Otherwise the first matching pattern's port gives `http://localhost:<port>`, which is launched once, and the flag is set. The state stays equal to `Replay` of all chunks seen, and at most one URL is ever launched. |

## Left out

- `openIncognito` (bin/index.js:35-80) is outside effects only: shell commands for Chrome with per-platform fallbacks to Safari, Edge and Firefox. Each call is one URL appended to the ghost log `launches`.
- Spawning the dev command, relaying and printing its output, the `close` handler and the `SIGINT` handler (bin/index.js:125-128, 144, 164, 182-197) are process lifecycle and signal handling. The model records only the decision to spawn (`Setup.Plan`).
- Reading the working directory, reading `package.json` and `JSON.parse` are abstracted as a set of file names and an already parsed value. A `package.json` that is not valid JSON makes `JSON.parse` throw. That case is not modelled.
- `Setup.Json` keeps JSON numbers as integers with the same truthiness. Non-integral numbers are left out; every one of them is truthy, like a non-zero integer.
- A `package.json` holding `null` makes `pkg.scripts` throw before any spawn. It is modelled as the error `NullManifest` and given exit status 1, which is what Node.js's default handling of an unhandled rejection gives.
- `PackageManager.DevCommand` returns None for every name other than pnpm, yarn and npm. In JavaScript, a name such as `toString` would instead find an inherited property of the lookup object. No such name can reach it, because the manager always comes from `getPackageManager`.
- Banner rendering with figlet, chalk and boxen (bin/index.js:101-123), and every console message, are cosmetic output.
- The unused `detect-port` import and the unused `DEFAULT_PORT` constant (bin/index.js:4, 12) do nothing.
- The general regular-expression engine is not modelled. Only the constructs of the five fixed patterns are. Chunks are sequences of Unicode characters, whereas JavaScript strings are UTF-16 code units. This does not change which patterns match, because every character the patterns mention is in the Basic Multilingual Plane.
- Decoding a chunk's bytes with `data.toString()` is left out: chunks arrive as strings.
- Concurrency between the two streams is not modelled. Each `OnChunk` call is atomic, as a callback on Node.js's single-threaded event loop is. Any interleaving of the two streams is one sequence of chunks.
