# TidyJigsawOutput, modelled in Dafny

`TidyJigsawOutput` is a webpack plugin for Jigsaw static sites. When the
`jigsawDone` build hook fires, it checks the current build environment
against an allow-list. If the environment is allowed, it walks the build
output directory and runs every file whose path matches a pattern (by
default, paths ending in `.html`) through the `pretty` formatter. Each
formatted file is written into an output directory that mirrors the input
tree. Unmatched files are never written.

The model has four modules:

- `Wrappers` (`wrappers.dfy`): `Option` for JavaScript's `undefined` and `Result` for thrown errors.
- `Config` (`config.dfy`): the options, JavaScript truthiness, the `allowedEnvs` values, the
  allow-list condition, the match pattern and the default rules.
- `Tree` (`tree.dfy`): the input tree as a `Node` datatype, the body of one `readdir` callback
  (`ReadDirCallback`), and `Schedule`, the write log of a walk whose pending `readdir` callbacks
  run first-in first-out. It also holds `Expected`, an independent depth-first description of the
  output ("every matched file, at its mirrored path, formatted"), and the lemmas that connect the two.
- `Plugin` (`plugin.dfy`): the class `TidyJigsawOutput`. Its settings are `const` fields
  computed from `options` exactly as the constructor computes them. It has `GetPath`,
  `GetInPath`, `GetOutPath`, the worklist method `TidyOutput` and `Apply`.

How the model represents the program:

- **`allowedEnvs`** is `Str(s) | Arr(items) | Unset`. `'*'` is the string `Str("*")`. `Str("")`
  is falsy, like `Unset`. An empty array is truthy, so it is kept and rejects every environment.
- **The file system** is a `Host`. `fs.existsSync` is membership in a set of paths.
  `path.normalize` and the one-argument `path.resolve` are functions whose workings are not
  modelled. The tree below the input root is a `Node` snapshot. `path.resolve(dir, name)` is
  `dir + "/" + name`, which holds for a directory other than `/` (`path.resolve("/", "a")` is
  `/a`, not `//a`). Writes are a log of `(path, content)` records in call order.
- **The ambient `argv.env`** becomes the constructor argument `defaultEnv`. `pretty` is a
  parameter. The `jigsawDone` hook is reduced to a boolean that says whether it exists.

Behaviour of the code worth knowing, which the model keeps:

- The walk is not depth-first. Each callback starts one `readdir` per subdirectory and does not
  wait for it, so a directory's own files are written before any subdirectory's callback runs.
  The model runs the callbacks first-in first-out from a queue.
- The program never creates output subdirectories.
- The output root falls back to the input root only when the `output` option is falsy. If
  `output` names a path that does not exist, `getOutPath` returns `undefined`, and
  `path.resolve(undefined)` throws a `TypeError`. The model records this as `OutputUnresolved`.
- The "does not exist" message names `build_<env>`, while the path checked is `./build_<env>`.

## Model

| member | source | states |
|---|---|---|
| `Config.Allowed` | index.js:76 | Truth table of the allow-list condition. A falsy list passes every environment. `'*'` passes every environment. Any other string passes only the equal environment. An array passes exactly its members, so an empty array passes none. |
| `Config.AllowListOrStar` | index.js:13 | `allowedEnvs` keeps a truthy option (including an empty array) and becomes `'*'` otherwise. The result is always truthy. |
| `Config.ConfiguredGate` | index.js:76 | After defaulting, tidying proceeds iff the option was falsy, is `'*'`, is the environment's name, or is an array containing it. |
| `Tree.HtmlSuffixByName` | index.js:49-57 | With the default pattern, a listed file's full input path matches exactly when the file's own name ends in `.html`, whatever directory it is in. |
| `Plugin.TidyJigsawOutput.constructor` | index.js:10-17 | Each setting falls back on its own. `env` is `options.env`, then the command-line environment, then `'local'`, so it is never empty. `allowedEnvs` falls back to `'*'`. The pattern falls back to a `.html` suffix test. `encoding` falls back to `'utf8'`. `rules` falls back to `{ ocd: true }`. |
| `Plugin.TidyJigsawOutput.GetPath` | index.js:19-23 | Returns the normalized path exactly when the path exists, and `undefined` otherwise. |
| `Plugin.TidyJigsawOutput.GetInPath` | index.js:25-27 | Resolves the `input` option if it is truthy, else `./build_<env>`. |
| `Plugin.TidyJigsawOutput.GetOutPath` | index.js:29-31 | Resolves the `output` option if it is truthy. Otherwise it yields a path only when the input root exists. |
| `Plugin.TidyJigsawOutput.OutputFallsBackToInput` | index.js:29-31 | Without an `output` option, the output root equals the input root, on a host whose normalization keeps existence and is idempotent. |
| `Plugin.TidyJigsawOutput.GateAfterConstruction` | index.js:76 | The gate on the constructed plugin passes iff the configured list is falsy, `'*'`, the environment, or an array containing it. With no list it always passes. With an empty array it never passes. |
| `Tree.ReadDirCallback` | index.js:48-64 | One `readdir` callback handles the entries in listing order. A matched file is written formatted at `outDir/<name>`. An unmatched file is not written. A directory starts a call on `(inDir/<name>, outDir/<name>)`. |
| `Plugin.TidyJigsawOutput.TidyOutput` | index.js:39-66 | A falsy `outDir` means `inDir`. A root that is a file fails with `NotADirectory`, the only listing error modelled. Otherwise the write log is the FIFO callback schedule, and as a multiset it is exactly the expected writes: every matched file once, at its mirrored path, formatted. |
| `Plugin.TidyJigsawOutput.Apply` | index.js:68-94 | A missing hook fails first. An excluded environment is skipped whatever the file system holds. A missing input root fails with its location. An unresolvable output root fails. Otherwise the tree below the resolved input root is tidied into the resolved output root. |
| `Tree.ScheduleCoversPending` | index.js:43-65 | Running the pending callbacks writes exactly the expected writes of all of them, as a multiset. |
| `Tree.ExpectedSplit` | index.js:48-63 | One directory's expected writes are its callback's own writes plus the expected writes of the subdirectory calls it starts. |
| `Tree.ScheduleIsExpected` | index.js:39-66 | A tidy started on one listing makes exactly the expected writes, each as often as expected. |
| `Tree.WritesExactlyMatched` | index.js:48-63 | `w` is written iff `w` is some file's formatted text at `outDir + rel`, where the file's input path `inDir + rel` matches the pattern. |
| `Tree.UnmatchedNeverWritten` | index.js:55-62 | No write lands on the mirrored path of a file whose input path does not match. |
| `Tree.InPlaceOnlyRewritesMatched` | index.js:41-62 | When `outDir == inDir`, every write rewrites an existing matched file with its own formatted text. Unmatched files are never written. |
| `Tree.RootListingFirst` | index.js:43-64 | The root listing's writes come first, in listing order, followed by the subdirectories' writes. An empty directory writes nothing. |
| `Tree.HtmlExample` | index.js:48-63 | With the default pattern, `a.html`, `b.txt` and `sub/c.html` under `/site` give exactly two writes, `/out/a.html` then `/out/sub/c.html`. `b.txt` is not written. |

## Left out

- `GetOutPath`: when `output` is unset, its contract only says that a result needs an existing
  input root. Equality with the input root is `OutputFallsBackToInput`, which needs a host whose
  `path.normalize` keeps existence and is idempotent.
- Node's `fs` and `path` are abstract. `existsSync` is set membership. `normalize` and
  one-argument `resolve` are uninterpreted functions of the `Host`.
- Errors from reading or writing one file are not modelled, and every write succeeds. In the
  program these errors are thrown inside a callback and end the process. They include a write into
  an output subdirectory that does not exist (the program never creates one), an unreadable
  file, and `statSync` on a broken link.
- Listing errors: every directory in the `Node` snapshot lists successfully. The only listing
  failure the model has is `NotADirectory`, for a root that is a file. The program rethrows any
  `readdir` error, such as `EACCES`, on the root or on any subdirectory. A subdirectory's error is
  thrown in that directory's own callback, after earlier callbacks have already written their files.
- Symbolic links: `fs.statSync` follows them, and a finite `Node` snapshot cannot express a
  cycle. A link back to an ancestor makes the program re-enter the same directory under ever
  longer paths until the lookup fails with `ELOOP`. In an in-place run it rewrites the same files
  again, starting from content it has already rewritten.
- The input tree is a snapshot taken before the walk. An output root nested inside the input root,
  whose new files a later listing would see, is not modelled.
- Scheduling: the model runs callbacks in the order they were started. Node may complete parallel
  `readdir` calls in another order between directories. There is no completion signal, and none
  is modelled.
- `pretty` and the contents of the rule object are opaque. `encoding` is recorded but not
  applied: contents are text, and writes use Node's default encoding.
- Regular-expression semantics are left out beyond the default suffix test. A custom `test` is an
  arbitrary predicate on the full input path. The `lastIndex` state of global regular
  expressions is not modelled.
- `log` and the `verbose` option only print to the console.
- The webpack/tapable hook is a boolean "hook present". The registered callback is taken to fire
  exactly once.
- Option values outside the documented types (numbers, objects as `env`, and so on) are not modelled.
