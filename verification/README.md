# npx-dntx launcher, modelled in Dafny

`dntx` is a one-shot launcher for .NET tools. It is called as
`npx dntx <package-id>[@<version>] [tool arguments…]`. It does five things in order:

1. It checks that the `dotnet` SDK answers.
2. It parses the package token.
3. It installs the tool into a fresh temporary directory with `dotnet tool install --tool-path`.
4. It works out which file in that directory is the tool and runs it with the remaining arguments.
5. It removes the directory.

The repository ships two variants of the launcher:

- `bin/index.cjs` splits the token on `@`. It finds the command name from the directory listing, falling back to the installer's output. It spawns the file with an argument vector.
- `bin/index.js` parses the token with an anchored regular expression. It takes the command name from the last `.` segment of the package id. It runs a single shell command line.

The model is a set of pure functions over strings and sequences, in these modules:

| module | what it holds |
|---|---|
| `JsStrings` | The ECMAScript string behaviour the launcher relies on: the `\s` class, `trim`, ASCII case-insensitive matching, `indexOf`, `split` on one character, `join`. |
| `PackageId` | Both package-token parsers. The anchored parser returns `None` where the regular expression fails to match, so where reading `match[1]` throws. |
| `Resolution` | The executable-resolution step of `installDotnetTool`: the single-entry rule, the documentation/metadata filter, and the leftmost match of the phrase pattern in the installer's standard output. Both regular expressions are written as hand-made predicates, with a proof that greedy matching loses nothing to backtracking. |
| `Installer` | The install command lines of both variants, the standard-error warning rule, and the wrapping of every failure into `Failed to install …`. |
| `Launcher` | The executable file name and path, how the run settles from the child's outcome, the `bin/index.js` tool name, and its shell command line. |
| `Cli` | Each variant's action as a phase machine. `bin/index.cjs` goes check toolchain → parse → allocate temporary directory → install → run → clean up. `bin/index.js` goes check toolchain → allocate temporary directory → parse → install → run → clean up, because it parses inside the install step (`bin/index.js:39`). Each machine produces an exit code and a trace of observable events, and is proved equal to a direct reading of the nested `try`/`catch`/`finally`. |

The outside world is an input, `Cli.World`. It holds the platform, whether `dotnet --version` succeeded, the temporary directory or its allocation error, the install command's outcome, the directory listing, and what became of the tool's process. The facts about the machines are first proved for any answers of the calls they make (`CjsCalls`, `EsmCalls`). They are then instantiated with the real operations.

Three behaviours of the code are worth stating plainly, because a reader of the launcher might expect otherwise:

- **Exit code.** On any failure both variants exit with 1. A tool that fails with its own non-zero code does not pass that code on (`bin/index.cjs:243-244`, `bin/index.js:44-47`, `bin/index.js:66-69`, `bin/index.js:101-105`). See `Cli.CjsExitCode`, `Cli.CjsToolExitCodeIsNotForwarded` and `Cli.EsmExitCode`.
- **Cleanup.** The `finally` at `bin/index.cjs:245-247`, commented as cleaning up the temporary directory, shows that removal was meant to happen on every path. But a failure calls `process.exit(1)` from inside the `catch` just before it, which ends the process before the `finally` runs. `bin/index.js` does the same through the `process.exit(1)` calls of its install and run steps (`bin/index.js:46`, `bin/index.js:69`), which run before its `finally` at lines 106-111. The directory is therefore removed only after a successful run (`Cli.CjsCleansUpOnlyOnSuccess`, `Cli.EsmCleansUpOnlyOnSuccess`). This is listed under Findings, together with a corrected `bin/index.cjs` action that is proved to clean up exactly when it allocated.
- **Version text.** The pattern at `bin/index.js:16` captures everything after the first `@` as the version. `bin/index.cjs:95-98` keeps just the text between the first and second `@` (`PackageId.ParsersDivergeOnSecondAt`).

## Model

| member | source | states |
|---|---|---|
| `PackageId.ParseSplit` | bin/index.cjs:94-99 | The id is the longest `@`-free prefix of the token. The version is None exactly when the token has no `@`. Otherwise the version is the `@`-free text after the first `@`, up to the next `@` or the end, so it may be empty. |
| `PackageId.ParseSplitOfParts` | bin/index.cjs:95-98 | For an `@`-free id and version followed by nothing or by `@…`, the split parser returns exactly that id and version. Anything after a second `@` is dropped. |
| `PackageId.ParseExampleWithoutVersion` | __tests__/index.test.js:39-45 | `dotnet-example` parses to id `dotnet-example` with no version. |
| `PackageId.ParseExampleWithVersion` | __tests__/index.test.js:47-53 | `dotnet-example@1.2.3` parses to id `dotnet-example` and version `1.2.3`. |
| `PackageId.ParseAnchored` | bin/index.js:15-20 | Every parse result has the anchored pattern's shape: a non-empty `@`-free id, then either nothing or `@` and a non-empty version without line terminators. |
| `PackageId.ParseAnchoredIffShape` | bin/index.js:16 | The parser returns a reference exactly when the token has the pattern's shape with those captures, in both directions. So it accepts precisely what `^([^@]+)(?:@(.+))?$` matches. |
| `PackageId.ParseAnchoredRejects` | bin/index.js:16-18 | The empty token, every token starting with `@`, and every token whose text after an `@` holds a line break do not match, so `match[1]` throws. |
| `PackageId.ParsersDivergeOnSecondAt` | bin/index.js:15-20 | On `id@v@w` the split variant yields version `v`, while the anchored variant yields `v@w`. |
| `PackageId.ParsersDivergeOnTrailingAt` | bin/index.cjs:95-98 | For every `@`-free id, even the empty one, on `id@` the split variant yields the empty version, while the anchored variant finds no match. |
| `PackageId.ParsersAgreeOnOneAt` | bin/index.js:15-20 | On a token with at most one `@` that the anchored pattern accepts, both parsers produce the same reference. |
| `Resolution.StripExe` | bin/index.cjs:132-134 | A trailing case-sensitive `.exe` is removed once, and only on Windows. Otherwise the name is unchanged. |
| `Resolution.Candidates` | bin/index.cjs:137-140 | A name survives the filter exactly when it is listed and is neither documentation nor metadata, by the `.md/.txt/.json/.config` suffix or the `readme/license/notice` prefix, ignoring case. The filter predicate `Resolution.IsDocOrMetadata` (bin/index.cjs:138-139) is folded into this row. |
| `Resolution.DirectoryChoice` | bin/index.cjs:124-150 | A directory choice is always some listed entry with `.exe` stripped. A failed listing gives none. |
| `Resolution.TokenAfter` | bin/index.cjs:157 | `\s+([^\s\n]+)` at a position: the capture, when there is one, is at least one whitespace character followed by a maximal run of non-whitespace. When there is none, no split into whitespace and token matches. |
| `Resolution.TokenShapeIsGreedy` | bin/index.cjs:157 | Every match of `\s+([^\s\n]+)` uses the whole whitespace run and the whole token run after it, so backtracking finds nothing that greedy matching misses. |
| `Resolution.NoTokenShape` | bin/index.cjs:157 | Where greedy matching finds no whitespace or no token, no match of the capture pattern exists at that position. |
| `Resolution.MatchAt` | bin/index.cjs:157 | An attempt of the phrase pattern at a position succeeds exactly when one of the two phrases, ignoring case, is followed by whitespace and a token there. The first phrase is preferred. |
| `Resolution.InvocationToken` | bin/index.cjs:157-161 | The token found is non-empty and free of whitespace. There is none exactly when the pattern matches at no position of standard output. |
| `Resolution.InvocationTokenIsLeftmost` | bin/index.cjs:158 | The token reported is the capture of the leftmost position where the pattern matches. |
| `Resolution.ResolveCommandName` | bin/index.cjs:121-165 | Resolution never guesses. It fails, with the `Could not determine tool command name` message, exactly when the directory gives no non-empty name and the output holds no phrase-and-token. A success is the directory's choice when that choice is non-empty, and otherwise the token after the phrase. |
| `Resolution.SingleEntryWins` | bin/index.cjs:127-134 | A single entry is chosen whatever its name, less `.exe` on Windows. When the stripped name is non-empty, the output is then not consulted. |
| `Resolution.SeveralEntriesNeedOneSurvivor` | bin/index.cjs:135-149 | For a listing of several distinct names, the directory gives a choice exactly when some listed name is not documentation or metadata and every other such name equals it. The choice is then that name, less `.exe` on Windows. |
| `Resolution.CandidatesOfDistinct` | bin/index.cjs:137-140 | Filtering a listing without repeated names leaves candidates without repeated names. |
| `Resolution.CandidatesOfDocs` | bin/index.cjs:137-140 | Entries that are all documentation or metadata leave no candidate. |
| `Resolution.CandidatesOfOne` | bin/index.cjs:137-143 | One entry that is not documentation, listed once among documentation entries, is the only candidate. |
| `Resolution.OneExecutableAmongDocs` | bin/index.cjs:135-149 | The directory step picks the one entry that is not documentation or metadata when the others all are. |
| `Resolution.TwoExecutablesDefer` | bin/index.cjs:135-149 | Two different surviving entries leave the directory step without a choice. |
| `Resolution.ReadmeBesideTool` | bin/index.cjs:135-149 | A listing of `readme.md` and `tool` resolves to `tool`. |
| `Resolution.ToolBesideLibraryFails` | bin/index.cjs:135-165 | A listing of `tool` and `extra.dll`, with no phrase in the output, fails rather than pick either file. |
| `Resolution.UnresolvedMessage` | bin/index.cjs:163 | The error thrown when no name can be established starts with `Could not determine tool command name. Installation output: ` and continues with exactly the trimmed standard output. |
| `Resolution.InvokePhraseNamesCommand` | bin/index.cjs:157-161 | Output starting with `You can invoke the tool using the following command: <name>` followed by a line break yields `<name>`. |
| `Installer.InstallCommand` | bin/index.cjs:108-109 | The `bin/index.cjs` install command starts with `dotnet tool install --tool-path "<dir>"` and has no surrounding whitespace. |
| `Installer.InstallCommandShape` | bin/index.cjs:108-109 | The command is the prefix and the id, followed by ` --version <v>` exactly when the version is truthy. |
| `Installer.InstallCommandAnchored` | bin/index.js:41 | The `bin/index.js` install command starts with the prefix and the id. It ends with ` --version <v>` when a version was parsed, and with the id otherwise. Its length is exactly that of the prefix, a space, the id and, when a version was parsed, ` --version <v>`, so nothing else is in it. |
| `Installer.InstallCommandsAgree` | bin/index.js:41 | Where the id is non-empty, the version is absent or non-empty, and nothing ends in whitespace, both variants run the same install command. |
| `Installer.InstallCommandsDifferOnEmptyId` | bin/index.cjs:108-109 | With an empty id and no version, the `bin/index.cjs` command is the bare prefix, while the `bin/index.js` command (`bin/index.js:41`) keeps a trailing space. |
| `Installer.Install` | bin/index.cjs:103-179 | A failed install fails the step with no warning. Its message is `Failed to install <id>[ version <v>]: <message>`, extended with the trimmed standard error when that is non-empty. A completed install warns exactly when its standard error is not all whitespace, with the trimmed text. It then returns the resolved name, or the resolution failure under the same prefix. |
| `Installer.WarningLeavesResultAlone` | bin/index.cjs:115-119 | The standard error of a successful install never changes the resolved name or the failure message. |
| `Installer.FailedInstallSkipsResolution` | bin/index.cjs:168-178 | A failed install fails whatever the directory holds, and no resolution is attempted. |
| `Installer.ErrorDetails` | bin/index.cjs:170-172 | The details start with the error's message. They are the message alone when standard error is empty. Otherwise what follows the message is exactly a line break, `Tool installation error details: ` and the trimmed standard error. |
| `Installer.FailureMessage` | bin/index.cjs:178 | The message starts with `Failed to install <id>`, continues with ` version <v>` when the version is truthy and with nothing else when it is not, and ends with `: ` and the details. Its length is exactly the sum of those parts, so nothing else is in it. Its partner is `Installer.FailureMessageKeepsDetails`. |
| `Installer.FailureMessageKeepsDetails` | bin/index.cjs:170-178 | A failure message ends with `: ` and the details, and two failure messages for the same package differ exactly when their details differ, so no detail is lost. |
| `Launcher.ExeFileName` | bin/index.cjs:185 | Removing `.exe` from the file name run gives back the command name, on every platform. |
| `Launcher.RunsChosenEntry` | bin/index.cjs:185 | The file run is exactly the entry the directory step chose, unless on Windows that entry lacked `.exe`. |
| `Launcher.WindowsEntryWithoutExeIsMissed` | bin/index.cjs:185 | On Windows a chosen entry without `.exe` is run as `<entry>.exe`. |
| `Launcher.JoinPath` | bin/index.cjs:186 | The joined path starts with the directory and ends with the file name, and it is longer than the directory when both are non-empty. |
| `Launcher.Launch` | bin/index.cjs:192-198 | The spawned argument vector is the argument list unchanged. The executable path lies in the tool directory and ends with the (`.exe`-suffixed on Windows) command name. |
| `Launcher.DecimalRoundTrip` | bin/index.cjs:205 | The exit code printed in the rejection message reads back as the exit code. |
| `Launcher.RunSettles` | bin/index.cjs:200-212 | The run resolves exactly when the tool exited with code 0. A non-zero exit rejects with `Tool exited with code <n>`, a kill by signal with `Tool exited with code null`, and a spawn error with its own message. |
| `Launcher.ToolNameFromId` | bin/index.js:55 | The tool name is the maximal `.`-free suffix of the id: either the whole id, or the text after its last `.`. |
| `Launcher.ShellCommand` | bin/index.js:59 | The shell command starts with the quoted executable path and a space. |
| `Launcher.ShellArgumentsRoundTrip` | bin/index.js:59 | Arguments without spaces are recovered by splitting what follows the path on spaces. |
| `Launcher.ShellCommandMergesArguments` | bin/index.js:59 | For any two strings, one argument holding them separated by a space gives the same shell command as the two as separate arguments. |
| `JsStrings.Trim` | bin/index.cjs:115 | The result has no whitespace at either end, and it is empty exactly when the input is all whitespace. |
| `JsStrings.TrimOfPadded` | bin/index.cjs:109 | Trimming whitespace around a core without surrounding whitespace gives back the core. |
| `JsStrings.TrimIdempotent` | bin/index.cjs:109 | Helper fact about the `trim` applied to the install command: trimming twice is trimming once, so the command is left alone by a second `trim`. |
| `JsStrings.Split` | bin/index.cjs:95 | A split has at least one piece, and no piece contains the separator. |
| `JsStrings.JoinSplit` | bin/index.cjs:95 | Joining the pieces of a split with the separator gives back the string. |
| `JsStrings.SplitJoin` | bin/index.js:59 | Splitting a join of separator-free pieces gives back the pieces. |
| `JsStrings.LastSegmentIsMaximalSuffix` | bin/index.js:55 | The last segment is a separator-free suffix, preceded by the separator unless it is the whole string. |
| `Cli.EsmToolPath` | bin/index.js:55-56 | The `bin/index.js` executable path starts with the temporary directory and ends with the last id segment, plus `.exe` on Windows. |
| `Cli.CjsStep` | bin/index.cjs:222-253 | Every phase of `bin/index.cjs` moves strictly forward and only appends to the trace. |
| `Cli.CjsMachineIsAction` | bin/index.cjs:222-253 | The phase machine gives the same exit code and trace as the nested `try`/`catch`/`finally`, for any answers of the calls. |
| `Cli.CjsTryFacts` | bin/index.cjs:233-241 | The inner `try` yields 0 exactly when the name was resolved and the tool exited with 0, and 1 otherwise. It spawns only the resolved command and neither allocates nor removes a directory. |
| `Cli.CjsAction` | bin/index.cjs:222-253 | For any answers of the calls, the direct reading of the nested `try`/`catch`/`finally` starts with the toolchain check, exits with 0 or 1, and exits with 0 exactly when every call succeeds. The inner `catch` (bin/index.cjs:242-244) and the `finally` (bin/index.cjs:245-248) are the helpers `Cli.CjsCatch` and `Cli.CjsFinally`, folded into this row and `Cli.CjsActionCleanup`. |
| `Cli.CjsRun` | bin/index.cjs:222-253 | The phase machine run on a world's answers gives the same outcome as the direct reading of `bin/index.cjs` as written, where `process.exit(1)` skips the `finally`. |
| `Cli.CjsRunCleaningUp` | bin/index.cjs:242-248 | The phase machine for the corrected action gives the same outcome as the direct reading with the `finally` reached on every path. |
| `Cli.CjsActionCleanup` | bin/index.cjs:231-248 | The directory is allocated exactly when the toolchain is there and allocation succeeds. It is removed, as the last event, exactly when it was allocated and the `finally` is reached. |
| `Cli.CjsActionSpawns` | bin/index.cjs:235-241 | The tool is spawned only from the temporary directory, under the name the install step resolved. |
| `Cli.CjsExitCode` | bin/index.cjs:242-252 | `bin/index.cjs` exits with 0 exactly when every phase succeeds, and with 1 otherwise. Reaching the `finally` on every path does not change the exit code. |
| `Cli.CjsToolExitCodeIsNotForwarded` | bin/index.cjs:242-244 | A tool that fails with its own non-zero code still ends the launcher with exit code 1. |
| `Cli.CjsChecksToolchainFirst` | bin/index.cjs:224-231 | The toolchain check is the first event. The directory is allocated, as the second event, exactly when the toolchain is there and allocation succeeds. |
| `Cli.CjsCleansUpOnlyOnSuccess` | bin/index.cjs:242-248 | As written, the directory is removed exactly when the run exits with 0. |
| `Cli.CjsCleaningUpCleansIffAllocated` | bin/index.cjs:245-248 | With the `finally` reached on every path, the directory is removed exactly when it was allocated, and the removal is the last event. |
| `Cli.CjsFailedInstallLeaksTempDir` | bin/index.cjs:242-248 | After a failed install, the directory is left behind as written and removed when the `finally` is reached. Both versions exit with 1. |
| `Cli.CjsPassesArgumentsThrough` | bin/index.cjs:237-241 | The spawned tool lies in the temporary directory under the resolved name and receives every program argument after the token, unchanged and in order. |
| `Cli.EsmStep` | bin/index.js:79-112 | Every phase of `bin/index.js` moves strictly forward and only appends to the trace. |
| `Cli.EsmMachineIsAction` | bin/index.js:79-112 | The phase machine gives the same exit code and trace as the direct reading, for any answers of the calls. |
| `Cli.EsmAction` | bin/index.js:79-112 | For any answers of the calls, the direct reading of `bin/index.js` starts with the toolchain check and exits with 0 when every call succeeds and with 1 otherwise. |
| `Cli.EsmRun` | bin/index.js:79-112 | The phase machine run on a world's answers gives the same outcome as the direct reading of `bin/index.js`. |
| `Cli.EsmActionCommands` | bin/index.js:39-59 | Whenever the install or shell command appears in the trace, the toolchain was there, the directory was allocated and the token matched. The command is the one built from the captured reference and the directory, and the shell command only follows a completed install. |
| `Cli.EsmActionCleanup` | bin/index.js:90-111 | The directory is allocated exactly when the toolchain is there and allocation succeeds. It is removed, as the last event, exactly on success. |
| `Cli.EsmExitCode` | bin/index.js:79-112 | `bin/index.js` exits with 0 exactly when every phase succeeds, and with 1 otherwise. |
| `Cli.EsmCleansUpOnlyOnSuccess` | bin/index.js:106-111 | The toolchain check comes first. The directory is allocated exactly when allocation is reached and succeeds, and it is removed exactly when the run exits with 0, because the `process.exit(1)` calls of the install and run steps (`bin/index.js:44-47`, `bin/index.js:66-69`) end the process before this `finally`. |
| `Cli.EsmMalformedTokenLeaksTempDir` | bin/index.js:37-47 | A token the pattern rejects ends the run with 1, after the directory exists and before any install. The directory is left behind. |
| `Cli.EsmInstallsWhatItParsed` | bin/index.js:39-42 | The install command names the id the pattern captured, in the temporary directory, and ends with the version when one was captured. |
| `Cli.EsmRunsLastSegment` | bin/index.js:54-60 | The shell command runs the last id segment from the temporary directory with `argv[3..]`. |
| `Cli.VariantsAgreeBeforeInstall` | bin/index.js:83-94 | With a missing toolchain or a failed allocation, both variants produce the same events and exit with 1. |
| `Cli.VariantsLeakOnFailedInstall` | bin/index.js:44-47 | A failed install ends both variants with 1 and leaves the directory behind in both. |

## Left out

- The Windows registry loop (`bin/index.cjs:10-77`) that re-reads environment variables from `reg query`. It depends on operating-system state.
- The `commander` front end (program name, help text, the missing-argument error, unknown options). The model takes the package token and the program arguments as given.
- Console and standard-error messages. Only the thrown or reported texts appear, as `ErrorReported` and `InstallWarning` events.
- `exec`, `spawn`, `fs.readdir` and `tmp-promise` are not modelled. Their answers are fields of `Cli.World`. Removing the directory is the `CleanupStarted` event; its own failures are not modelled.
- `checkDotnetInstallation` is not modelled. Its outcome is a boolean, and a missing toolchain ends the run with exit code 1.
- Standard-stream inheritance of the spawned tool, and the standard output and standard error that `bin/index.js` echoes after its run.
- `bin/index.js` parses the token a second time inside `runDotnetTool`. That parse sees the same token and gives the same result as the first, so the model parses once.
- `Launcher.JoinPath`: does not model `path.join`'s normalisation of `.`, `..` or repeated separators. The model joins one directory and one file name with the platform separator.
- `Installer.InstallCommandShape`: stated for a non-empty id, and for ids and versions that do not end in whitespace. Otherwise the trim also removes their trailing whitespace, or the blanks before an empty id.
- `Installer.InstallCommandsAgree`: stated only where neither variant's trim or truthiness rule applies, that is a non-empty id, an id and version without trailing whitespace, and no empty version. `Installer.InstallCommandsDifferOnEmptyId` shows the empty id case, where the commands differ.
- `Resolution.SeveralEntriesNeedOneSurvivor`: stated for listings without repeated names, which is what a directory listing gives. `Resolution.TwoExecutablesDefer` covers two different survivors directly.
- `Resolution.InvokePhraseNamesCommand`: covers the phrase at the very start of the output. The general leftmost-match property is `Resolution.InvocationTokenIsLeftmost`.
- JavaScript strings are sequences of UTF-16 code units, and the model's strings are sequences of characters. The launcher only matches them against ASCII patterns, and the case-insensitive patterns (without the `u` flag) never fold a non-ASCII character onto an ASCII one.

## Findings

| source | as written | input that shows it | evidently intended | confidence | as-written member | corrected member |
|---|---|---|---|---|---|---|
| bin/index.cjs:242-248 | `process.exit(1)` in the inner `catch` ends the process, so the `finally` that removes the temporary directory never runs on a failure. | Toolchain present, temporary directory allocated, install command fails. | The temporary directory is removed on every path after it was allocated, which is what the `finally` is for. | not executed | `Cli.CjsFailedInstallLeaksTempDir` | `Cli.CjsCleaningUpCleansIffAllocated` |
