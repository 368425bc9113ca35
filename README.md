# savesync, modelled in Dafny

savesync watches a directory of game saves (`RETRO_SAVES`). For every file
the watcher reports as created or written, it works out the file's path
relative to that directory. It does this in preparation for copying the file
to a destination (`RETRO_GAMES`). This project models the program's decision
core in Dafny and proves its properties:

- loading the two directories from the environment, and the error for a
  variable that is not set;
- validating that both roots exist and are directories, in a fixed order,
  with one message per failure;
- the watch loop, which dispatches creations and writes and skips everything
  else;
- relativising an event's path against the source root;
- the `main` pipeline: load, then validate, then watch, with exit code 1 at
  the first stage that fails.

Files, one module each:

- `results.dfy`: `Option` and `Result<T>`, standing for Rust's
  `Result<T, String>`.
- `paths.dfy`: `PathBuf` as text and as components (`Parse`), `PathBuf::join`
  (`JoinPath`), and `pathdiff::diff_paths` for an ancestor base (`DiffPaths`).
- `configuration.dfy`: `Config` and `load_configuration_from_environment`.
  The environment is a `map<string, string>`.
- `validation.dfy`: `validate_config` over an abstract filesystem, a map from
  path text to what is there.
- `dispatch.dfy`: `make_path_relative_to_src`, `copy_to_dest`, the loop's
  `match`, the `Dispatched` specification of the loop with its ordering
  lemmas, and the imperative `Watch` method.
- `savesync.dfy`: `main` as a function from the environment, the filesystem,
  the watcher's setup outcomes and a finite run of receives to an `Outcome`.

Where a design description of this system and the code disagree, the model
follows the code:

- There is no bootstrap sync and no bootstrap flag.
- `copy_to_dest` runs no copy command. It only computes (and logs) the
  relative path, so the model's output is the ordered list of those relative
  paths.
- Events are not filtered by whether the path is a directory.
- A receive error is logged and the loop goes on. It does not end the run.

## Model

| member | source | states |
|---|---|---|
| Configuration.LoadConfigurationFromEnvironment | src/main.rs:26-38 | succeeds exactly when both `RETRO_SAVES` and `RETRO_GAMES` are set, and then gives `Config{src, dest}` with the values verbatim; with `RETRO_SAVES` unset the error is the `RETRO_SAVES:` one; with only `RETRO_GAMES` unset it is the `RETRO_GAMES:` one |
| Configuration.MissingVariable | src/main.rs:29 | the error message starts with the variable's name followed by `: ` |
| Configuration.ErrorNamesMissingVariable | src/main.rs:27-35 | a load error starts with `RETRO_SAVES: ` exactly when `RETRO_SAVES` is unset, and starts with `RETRO_GAMES: ` exactly when `RETRO_SAVES` is set |
| Configuration.SavesCheckedFirst | src/main.rs:27-30 | while `RETRO_SAVES` is unset, loading fails the same way whatever else the environment holds |
| Validation.ValidateConfig | src/main.rs:74-88 | `Ok` if and only if both roots exist and are directories; each of the four messages is returned exactly under its condition: source missing; source present but not a directory; source usable but destination missing; destination present but not a directory |
| Validation.SourceReportedFirst | src/main.rs:75-79 | once the source fails, the verdict does not depend on the destination at all |
| Validation.OnlyRootsConsulted | src/main.rs:74-88 | the verdict depends only on what the filesystem has at the two roots |
| Paths.DiffPaths | src/main.rs:71 | for an ancestor base, the result is relative, joins back onto the base to give the path, and has as many components as the path has beyond the base |
| Paths.DiffPathsUnique | src/main.rs:71 | any relative path that joins onto the base to give the path is the one `DiffPaths` returns |
| Paths.ParseDisplay | src/main.rs:71 | reading back the text of a component list gives the same components, so the component view used for comparison round-trips |
| Paths.ParseIdempotent | src/main.rs:71 | reading components normalises: printing a parsed path and parsing it again changes nothing |
| Dispatch.MakePathRelativeToSrc | src/main.rs:70-72 | for a path in the source tree, the result is relative and `src` joined with it is the path (`src ++ rel == path`); it has `|path| - |src|` components |
| Dispatch.CopyToDest | src/main.rs:20-24 | the relative path computed for an event's path joins back onto the source to give that path |
| Dispatch.Handle | src/main.rs:104-110 | a `Create` or `Write` yields exactly one entry, a relative path that joins back onto the source to give the event's own path (so it is the `diff_paths` result, by `DiffPathsUnique`); every other event, and a receive error, yields nothing |
| Dispatch.Dispatched | src/main.rs:103-111 | the loop yields at most one entry per receive |
| Dispatch.DispatchedAppend | src/main.rs:103-111 | dispatch over two runs of receives back to back is the concatenation of the dispatch of each |
| Dispatch.SkippedEventContributesNothing | src/main.rs:108-109 | a skipped event or a receive error adds nothing, and the events after it are still dispatched |
| Dispatch.DispatchedAt | src/main.rs:105-106 | the `Create`/`Write` at index `i` yields the entry at position `Rank(i)`, the number of entries before it, and that entry is its relativised path |
| Dispatch.RankIncreases | src/main.rs:103-111 | a later event's position is strictly after an earlier `Create`/`Write`'s position: delivery order is kept, one entry per such event |
| Dispatch.DispatchedOnto | src/main.rs:103-111 | every entry comes from some `Create`/`Write` event |
| Dispatch.Watch | src/main.rs:90-112 | a watcher that cannot be built or registered is an error with the watcher's message; otherwise the loop visits every receive in order and returns exactly `Dispatched` |
| Dispatch.CreatedFileExample | src/main.rs:105-106 | with source `/a`, creating `/a/x/y.txt` dispatches the relative path `x/y.txt` |
| SaveSync.Diagnostic | src/main.rs:46 | the logged line is `error: ` followed by the stage's message |
| SaveSync.Main | src/main.rs:40-68 | every exit has code 1; the run reaches watching exactly when loading, validation and watcher setup all succeed, and it then watches the loaded roots (both usable) with exactly `Dispatched` as its copies; event paths need to lie under the source only on runs that reach watching |
| SaveSync.LoadFailureStopsEarly | src/main.rs:43-49 | after a failed load the outcome is the load error, whatever the filesystem, watcher and events are |
| SaveSync.ValidationFailureStopsEarly | src/main.rs:51-57 | after a failed validation the outcome is the validation error, whatever the watcher and events are |
| SaveSync.WatchFailureExits | src/main.rs:61-67 | a watcher that fails to start gives exit code 1 with its message (the construction error first), whatever the events are |
| SaveSync.MissingSourceExits | src/main.rs:75-76 | when the source root does not exist, the process exits with code 1 before any watch is set up |
| SaveSync.CreatedFileRunExample | src/main.rs:40-68 | with `/a` and `/b` present as directories, creating `/a/x/y.txt` ends up watching `/a` → `/b` with `x/y.txt` dispatched |

## Left out

- Environment access, filesystem queries and `process::exit` are not modelled. They become inputs: an environment map, an abstract filesystem, and the `Outcome` value.
- `VarError::NotUnicode` is not modelled. The environment holds `string` values only, so the only load error is "environment variable not found".
- Event paths are given by their components (`Path`), not by their text. The watcher builds them from names on disk, so no parsing step is modelled for them.
- The abstract filesystem is keyed by path text. Symbolic links and the operating system's own path resolution are not modelled.
- The `notify` watcher is not modelled: its construction, the two-second debounce, recursive registration and the `mpsc` channel. Their errors become the `WatcherSetup` input, and the channel becomes a finite sequence of receive results.
- Logging (`info!`, `debug!`, `error!`) is not modelled. It has no effect on the outputs. `main`'s `error: …` line is kept as `Outcome.diagnostic`.
- `watch` loops forever. The model covers a finite prefix of receives and claims no termination or return value for the real loop. The `Ok` arm of `main` ("process complete", exit code 0) can never be reached, so it is not modelled.
- A disconnected channel makes every later `recv` fail. The model takes the receive results as given and does not model that.
- Paths.DiffPaths: covers only an ancestor base, taken as a precondition. Non-ancestor results with `..`, relative-versus-absolute mixes, and the `None` result that makes `expect` panic are not modelled. Every precondition that mentions the source tree comes from this.
- Paths.Parse: empty and `.` segments are dropped everywhere, including a leading `.`, which Rust keeps as a `CurDir` component. Windows path prefixes are not modelled.
- Dispatch.Dispatched: its own contract only bounds the output's length. Its content and order are stated by `DispatchedAt`, `RankIncreases`, `DispatchedOnto` and `SkippedEventContributesNothing`.
